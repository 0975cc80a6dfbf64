/** The string setters the schemas declare (`trim`, `uppercase`) and the
    `required` check on text fields. Trimming strips every character that
    `String.prototype.trim` strips; upper-casing maps the ASCII letters
    only. */
module Text {

  /** The white space and line terminators of ECMAScript (sections 12.2
      and 12.3 of ECMA-262): tab, line feed, vertical tab, form feed,
      carriage return, space, no-break space, the byte order mark, and the
      Unicode space separators and line and paragraph separators. */
  predicate IsSpace(c: char)
  {
    c == ' ' || c == '\t' || c == '\n' || c == '\U{000B}' || c == '\U{000C}' || c == '\r'
    || c == '\U{00A0}' || c == '\U{1680}' || '\U{2000}' <= c <= '\U{200A}'
    || c == '\U{2028}' || c == '\U{2029}' || c == '\U{202F}' || c == '\U{205F}' || c == '\U{3000}'
    || c == '\U{FEFF}'
  }

  /** `String.prototype.trim`. */
  function Trim(s: string): (r: string)
    ensures |r| <= |s|
    ensures r != [] ==> !IsSpace(r[0]) && !IsSpace(r[|r| - 1])
    ensures forall c :: c in r ==> c in s
    ensures (forall c :: c in s ==> !IsSpace(c)) ==> r == s
    decreases |s|
  {
    if s == [] then s
    else if IsSpace(s[0]) then Trim(s[1..])
    else if IsSpace(s[|s| - 1]) then Trim(s[..|s| - 1])
    else s
  }

  function UpperChar(c: char): char
  {
    if 'a' <= c <= 'z' then (c as int - 32) as char else c
  }

  /** `String.prototype.toUpperCase` on ASCII letters. */
  function Upper(s: string): (r: string)
    ensures |r| == |s|
    ensures forall k :: 0 <= k < |s| ==> r[k] == UpperChar(s[k])
  {
    seq(|s|, k requires 0 <= k < |s| => UpperChar(s[k]))
  }

  /** The value a `trim: true, uppercase: true` field stores. */
  function Code(s: string): string
  {
    Trim(Upper(s))
  }

  /** A `required` text field rejects the empty string (after trimming). */
  predicate Present(s: string)
  {
    Trim(s) != ""
  }

  lemma {:induction false} TrimIdempotent(s: string)
    ensures Trim(Trim(s)) == Trim(s)
    decreases |s|
  {
    if s == [] {
    } else if IsSpace(s[0]) {
      TrimIdempotent(s[1..]);
    } else if IsSpace(s[|s| - 1]) {
      TrimIdempotent(s[..|s| - 1]);
    }
  }

  /** What trimming keeps: the slice of `s` between the white space at its
      start and the white space at its end, which with the ends `Trim`
      guarantees to be non-space is exactly what `String.prototype.trim`
      returns. */
  lemma TrimInfix(s: string)
    ensures exists i, j :: 0 <= i <= j <= |s| && Trim(s) == s[i..j]
                           && (forall k :: 0 <= k < i ==> IsSpace(s[k]))
                           && (forall k :: j <= k < |s| ==> IsSpace(s[k]))
  {
    var i, j := TrimBounds(s);
    assert Bounds(s, Trim(s), i, j);
  }

  /** The bounds of the slice `TrimInfix` speaks of. */
  lemma {:induction false} TrimBounds(s: string) returns (i: nat, j: nat)
    ensures Bounds(s, Trim(s), i, j)
    decreases |s|
  {
    if s == [] {
      i, j := 0, 0;
    } else if IsSpace(s[0]) {
      var i', j' := TrimBounds(s[1..]);
      i, j := i' + 1, j' + 1;
      BoundsFront(s, Trim(s), i', j');
    } else if IsSpace(s[|s| - 1]) {
      i, j := TrimBounds(s[..|s| - 1]);
      BoundsBack(s, Trim(s), i, j);
    } else {
      i, j := 0, |s|;
    }
  }

  /** `r` is the slice `s[i..j]`, with only white space outside it. */
  predicate Bounds(s: string, r: string, i: nat, j: nat)
  {
    i <= j <= |s| && r == s[i..j]
    && (forall k :: 0 <= k < i ==> IsSpace(s[k]))
    && (forall k :: j <= k < |s| ==> IsSpace(s[k]))
  }

  lemma BoundsFront(s: string, r: string, i: nat, j: nat)
    requires s != [] && IsSpace(s[0]) && Bounds(s[1..], r, i, j)
    ensures Bounds(s, r, i + 1, j + 1)
  {
    assert s[1..][i..j] == s[i + 1..j + 1];
    forall k | 0 < k < i + 1 ensures IsSpace(s[k]) {
      assert s[k] == s[1..][k - 1];
    }
    forall k | j + 1 <= k < |s| ensures IsSpace(s[k]) {
      assert s[k] == s[1..][k - 1];
    }
  }

  lemma BoundsBack(s: string, r: string, i: nat, j: nat)
    requires s != [] && IsSpace(s[|s| - 1]) && Bounds(s[..|s| - 1], r, i, j)
    ensures Bounds(s, r, i, j)
  {
    var n := |s| - 1;
    assert s[..n][i..j] == s[i..j];
    forall k | 0 <= k < i ensures IsSpace(s[k]) {
      assert s[k] == s[..n][k];
    }
    forall k | j <= k < n ensures IsSpace(s[k]) {
      assert s[k] == s[..n][k];
    }
  }

  lemma UpperIdempotent(s: string)
    ensures Upper(Upper(s)) == Upper(s)
  {
  }

  /** Upper-casing never turns a space into a non-space or back. */
  lemma UpperKeepsSpaces(s: string)
    ensures forall k :: 0 <= k < |s| ==> (IsSpace(Upper(s)[k]) <==> IsSpace(s[k]))
  {
  }

  /** Trimming commutes with upper-casing. */
  lemma {:induction false} TrimUpperCommute(s: string)
    ensures Trim(Upper(s)) == Upper(Trim(s))
    decreases |s|
  {
    UpperKeepsSpaces(s);
    if s == [] {
    } else if IsSpace(s[0]) {
      assert Upper(s)[1..] == Upper(s[1..]);
      TrimUpperCommute(s[1..]);
    } else if IsSpace(s[|s| - 1]) {
      assert Upper(s)[..|s| - 1] == Upper(s[..|s| - 1]);
      TrimUpperCommute(s[..|s| - 1]);
    }
  }

  /** Normalising a code twice changes nothing: a stored code is already in
      normal form, so re-saving a document never alters its unique key. */
  lemma CodeIdempotent(s: string)
    ensures Code(Code(s)) == Code(s)
  {
    TrimUpperCommute(Trim(Upper(s)));
    UpperIdempotent(Trim(Upper(s)));
    TrimUpperCommute(s);
    UpperIdempotent(Trim(s));
    TrimIdempotent(Upper(s));
    TrimIdempotent(s);
    TrimUpperCommute(Upper(s));
  }

  /** Binary string order, as `$sort` compares string keys: `a` comes
      strictly before `b` at the first differing character code, and a
      proper prefix comes first. */
  predicate Below(a: string, b: string)
    decreases |a|
  {
    if a == [] then b != []
    else if b == [] then false
    else a[0] < b[0] || (a[0] == b[0] && Below(a[1..], b[1..]))
  }

  lemma {:induction false} BelowAsymmetric(a: string, b: string)
    ensures Below(a, b) ==> !Below(b, a)
    decreases |a|
  {
    if a != [] && b != [] && a[0] == b[0] {
      BelowAsymmetric(a[1..], b[1..]);
    }
  }

  /** Any two different strings are ordered one way or the other. */
  lemma {:induction false} BelowTotal(a: string, b: string)
    ensures a == b || Below(a, b) || Below(b, a)
    decreases |a|
  {
    if a != [] && b != [] && a[0] == b[0] {
      BelowTotal(a[1..], b[1..]);
      assert a == [a[0]] + a[1..] && b == [b[0]] + b[1..];
    }
  }

  lemma {:induction false} BelowTransitive(a: string, b: string, c: string)
    requires Below(a, b) && Below(b, c)
    ensures Below(a, c)
    decreases |a|
  {
    if a != [] && a[0] == b[0] && b[0] == c[0] {
      BelowTransitive(a[1..], b[1..], c[1..]);
    }
  }

  /** Strictly ascending in string order, hence without repeats. */
  ghost predicate Increasing(s: seq<string>)
  {
    forall i, j :: 0 <= i < j < |s| ==> Below(s[i], s[j])
  }
}
