/** A Mongo collection as a sequence of documents in insertion order, each
    carrying its identifier, with lookup by id and the update operations the
    controllers use (insert, replace, delete). */
module Tables {
  import opened Common

  datatype Doc<T> = Doc(id: Id, body: T)

  /** `findById`: the position of the document with the given id. */
  function Find<T>(s: seq<Doc<T>>, id: Id): (r: Option<nat>)
    ensures r.Some? ==> r.value < |s| && s[r.value].id == id
    ensures r.Some? ==> forall k :: 0 <= k < r.value ==> s[k].id != id
    ensures r.None? <==> forall k :: 0 <= k < |s| ==> s[k].id != id
  {
    if s == [] then None
    else if s[0].id == id then Some(0)
    else match Find(s[1..], id)
      case None => None
      case Some(k) => Some(k + 1)
  }

  predicate Has<T>(s: seq<Doc<T>>, id: Id)
  {
    Find(s, id).Some?
  }

  function Get<T>(s: seq<Doc<T>>, id: Id): (r: Option<T>)
    ensures r.Some? <==> Has(s, id)
    ensures r.Some? ==> exists k :: 0 <= k < |s| && s[k] == Doc(id, r.value)
  {
    match Find(s, id)
    case None => None
    case Some(k) => Some(s[k].body)
  }

  ghost predicate DistinctIds<T>(s: seq<Doc<T>>)
  {
    forall i, j :: 0 <= i < j < |s| ==> s[i].id != s[j].id
  }

  ghost predicate IdsBelow<T>(s: seq<Doc<T>>, bound: Id)
  {
    forall k :: 0 <= k < |s| ==> s[k].id < bound
  }

  /** Identifiers are unique and were all handed out before `bound`. */
  ghost predicate Keyed<T>(s: seq<Doc<T>>, bound: Id)
  {
    DistinctIds(s) && IdsBelow(s, bound)
  }

  /** A unique index on the field `key`. */
  ghost predicate DistinctBy<T, K>(s: seq<Doc<T>>, key: T -> K)
  {
    forall i, j :: 0 <= i < j < |s| ==> key(s[i].body) != key(s[j].body)
  }

  /** Some document other than the one at `skip` already holds `k` in the
      indexed field (a duplicate-key error on insert or update). */
  predicate Taken<T, K(==)>(s: seq<Doc<T>>, key: T -> K, k: K, skip: Option<nat>)
  {
    exists i :: 0 <= i < |s| && Some(i) != skip && key(s[i].body) == k
  }

  /** Every document satisfies the schema predicate `ok`. */
  ghost predicate All<T>(s: seq<Doc<T>>, ok: T -> bool)
  {
    forall k :: 0 <= k < |s| ==> ok(s[k].body)
  }

  /** The documents without their identifiers, in order. */
  function Bodies<T>(s: seq<Doc<T>>): (r: seq<T>)
    ensures |r| == |s| && forall k :: 0 <= k < |s| ==> r[k] == s[k].body
  {
    seq(|s|, k requires 0 <= k < |s| => s[k].body)
  }

  function Replace<T>(s: seq<Doc<T>>, i: nat, body: T): (r: seq<Doc<T>>)
    requires i < |s|
    ensures |r| == |s| && r[i] == Doc(s[i].id, body)
    ensures forall k :: 0 <= k < |s| && k != i ==> r[k] == s[k]
  {
    s[i := Doc(s[i].id, body)]
  }

  function RemoveAt<T>(s: seq<Doc<T>>, i: nat): (r: seq<Doc<T>>)
    requires i < |s|
    ensures |r| == |s| - 1
    ensures forall k :: 0 <= k < i ==> r[k] == s[k]
    ensures forall k :: i <= k < |r| ==> r[k] == s[k + 1]
  {
    s[..i] + s[i + 1..]
  }

  lemma FindDistinct<T>(s: seq<Doc<T>>, k: nat)
    requires DistinctIds(s) && k < |s|
    ensures Find(s, s[k].id) == Some(k)
  {
  }

  lemma InsertKeyed<T>(s: seq<Doc<T>>, bound: Id, d: Doc<T>)
    requires Keyed(s, bound) && d.id == bound
    ensures Keyed(s + [d], bound + 1)
  {
  }

  lemma ReplaceKeyed<T>(s: seq<Doc<T>>, bound: Id, i: nat, body: T)
    requires Keyed(s, bound) && i < |s|
    ensures Keyed(Replace(s, i, body), bound)
  {
  }

  lemma RemoveKeyed<T>(s: seq<Doc<T>>, bound: Id, i: nat)
    requires Keyed(s, bound) && i < |s|
    ensures Keyed(RemoveAt(s, i), bound)
  {
    var r := RemoveAt(s, i);
    forall a, b | 0 <= a < b < |r| ensures r[a].id != r[b].id {
      var a', b' := if a < i then a else a + 1, if b < i then b else b + 1;
      assert r[a] == s[a'] && r[b] == s[b'] && a' < b';
    }
  }

  lemma InsertDistinctBy<T, K>(s: seq<Doc<T>>, key: T -> K, d: Doc<T>)
    requires DistinctBy(s, key) && !Taken(s, key, key(d.body), None)
    ensures DistinctBy(s + [d], key)
  {
    var r := s + [d];
    forall i, j | 0 <= i < j < |r| ensures key(r[i].body) != key(r[j].body) {
      if j == |s| {
        assert r[i] == s[i];
      }
    }
  }

  lemma ReplaceDistinctBy<T, K>(s: seq<Doc<T>>, key: T -> K, i: nat, body: T)
    requires DistinctBy(s, key) && i < |s| && !Taken(s, key, key(body), Some(i))
    ensures DistinctBy(Replace(s, i, body), key)
  {
    var r := Replace(s, i, body);
    forall a, b | 0 <= a < b < |r| ensures key(r[a].body) != key(r[b].body) {
      if a == i {
        assert Some(b) != Some(i) && r[b] == s[b];
      } else if b == i {
        assert Some(a) != Some(i) && r[a] == s[a];
      }
    }
  }

  lemma RemoveDistinctBy<T, K>(s: seq<Doc<T>>, key: T -> K, i: nat)
    requires DistinctBy(s, key) && i < |s|
    ensures DistinctBy(RemoveAt(s, i), key)
  {
    var r := RemoveAt(s, i);
    forall a, b | 0 <= a < b < |r| ensures key(r[a].body) != key(r[b].body) {
      var a', b' := if a < i then a else a + 1, if b < i then b else b + 1;
      assert r[a] == s[a'] && r[b] == s[b'] && a' < b';
    }
  }

  lemma InsertAll<T>(s: seq<Doc<T>>, ok: T -> bool, d: Doc<T>)
    requires All(s, ok) && ok(d.body)
    ensures All(s + [d], ok)
  {
  }

  lemma ReplaceAll<T>(s: seq<Doc<T>>, ok: T -> bool, i: nat, body: T)
    requires All(s, ok) && i < |s| && ok(body)
    ensures All(Replace(s, i, body), ok)
  {
  }

  lemma RemoveAll<T>(s: seq<Doc<T>>, ok: T -> bool, i: nat)
    requires All(s, ok) && i < |s|
    ensures All(RemoveAt(s, i), ok)
  {
  }
}
