/** The datastore: one collection per model, each a sequence of documents
    in creation order, and the counter that hands out identifiers. The
    class invariant gathers what the schemas and unique indexes guarantee
    of every stored document. */
module Database {
  import opened Common
  import opened Tables
  import SchoolModel
  import StudentModel
  import CategoryModel
  import ProductModel
  import SupplierModel
  import PurchaseModel
  import InvoiceModel
  import CommissionModel
  import AdminModel

  /** The contents of the store at one moment. */
  datatype Snapshot = Snapshot(
    schools: seq<Doc<SchoolModel.School>>,
    students: seq<Doc<StudentModel.Student>>,
    categories: seq<Doc<CategoryModel.Category>>,
    products: seq<Doc<ProductModel.Product>>,
    suppliers: seq<Doc<SupplierModel.Supplier>>,
    purchases: seq<Doc<PurchaseModel.Purchase>>,
    invoices: seq<Doc<InvoiceModel.Invoice>>,
    commissions: seq<Doc<CommissionModel.Commission>>,
    admins: seq<Doc<AdminModel.Admin>>,
    nextId: Id)

  /** What a request answers and the store it leaves behind. */
  datatype Outcome<T> = Outcome(result: Result<T>, state: Snapshot)

  /** Every document satisfies its schema, every unique index holds and
      every identifier was handed out by the counter exactly once per
      collection. */
  ghost predicate Consistent(s: Snapshot)
  {
    Keyed(s.schools, s.nextId) && All(s.schools, SchoolModel.Valid)
    && DistinctBy(s.schools, SchoolModel.CodeOf)
    && Keyed(s.students, s.nextId) && All(s.students, StudentModel.Valid)
    && DistinctBy(s.students, StudentModel.RollNumberOf)
    && Keyed(s.categories, s.nextId) && All(s.categories, CategoryModel.Valid)
    && DistinctBy(s.categories, CategoryModel.NameOf)
    && Keyed(s.products, s.nextId) && All(s.products, ProductModel.Valid)
    && DistinctBy(s.products, ProductModel.SkuOf)
    && Keyed(s.suppliers, s.nextId) && All(s.suppliers, SupplierModel.Valid)
    && DistinctBy(s.suppliers, SupplierModel.CodeOf)
    && Keyed(s.purchases, s.nextId) && All(s.purchases, PurchaseModel.Valid)
    && DistinctBy(s.purchases, PurchaseModel.NumberOf)
    && Keyed(s.invoices, s.nextId) && All(s.invoices, InvoiceModel.Valid)
    && DistinctBy(s.invoices, InvoiceModel.NumberOf)
    && Keyed(s.commissions, s.nextId) && All(s.commissions, CommissionModel.Valid)
    && Keyed(s.admins, s.nextId) && DistinctBy(s.admins, AdminModel.EmailOf)
  }

  /** Handing out an identifier without storing it keeps the store
      consistent. */
  lemma Bump(s: Snapshot)
    requires Consistent(s)
    ensures Consistent(s.(nextId := s.nextId + 1))
  {
  }

  /** Storing a valid school under a fresh identifier and an unused code
      keeps the store consistent. */
  lemma AddSchool(s: Snapshot, sc: SchoolModel.School)
    requires Consistent(s) && SchoolModel.Valid(sc)
    requires !Taken(s.schools, SchoolModel.CodeOf, sc.code, None)
    ensures Consistent(s.(schools := s.schools + [Doc(s.nextId, sc)], nextId := s.nextId + 1))
  {
    InsertKeyed(s.schools, s.nextId, Doc(s.nextId, sc));
    InsertAll(s.schools, SchoolModel.Valid, Doc(s.nextId, sc));
    InsertDistinctBy(s.schools, SchoolModel.CodeOf, Doc(s.nextId, sc));
  }

  /** Storing a valid category under a fresh identifier and an unused name
      keeps the store consistent. */
  lemma AddCategory(s: Snapshot, c: CategoryModel.Category)
    requires Consistent(s) && CategoryModel.Valid(c)
    requires !Taken(s.categories, CategoryModel.NameOf, c.name, None)
    ensures Consistent(s.(categories := s.categories + [Doc(s.nextId, c)], nextId := s.nextId + 1))
  {
    InsertKeyed(s.categories, s.nextId, Doc(s.nextId, c));
    InsertAll(s.categories, CategoryModel.Valid, Doc(s.nextId, c));
    InsertDistinctBy(s.categories, CategoryModel.NameOf, Doc(s.nextId, c));
  }

  /** Storing a valid product under a fresh identifier and an unused SKU
      keeps the store consistent. */
  lemma AddProduct(s: Snapshot, p: ProductModel.Product)
    requires Consistent(s) && ProductModel.Valid(p)
    requires !Taken(s.products, ProductModel.SkuOf, p.sku, None)
    ensures Consistent(s.(products := s.products + [Doc(s.nextId, p)], nextId := s.nextId + 1))
  {
    InsertKeyed(s.products, s.nextId, Doc(s.nextId, p));
    InsertAll(s.products, ProductModel.Valid, Doc(s.nextId, p));
    InsertDistinctBy(s.products, ProductModel.SkuOf, Doc(s.nextId, p));
  }

  /** Storing a valid supplier under a fresh identifier and an unused code
      keeps the store consistent. */
  lemma AddSupplier(s: Snapshot, sp: SupplierModel.Supplier)
    requires Consistent(s) && SupplierModel.Valid(sp)
    requires !Taken(s.suppliers, SupplierModel.CodeOf, sp.code, None)
    ensures Consistent(s.(suppliers := s.suppliers + [Doc(s.nextId, sp)], nextId := s.nextId + 1))
  {
    InsertKeyed(s.suppliers, s.nextId, Doc(s.nextId, sp));
    InsertAll(s.suppliers, SupplierModel.Valid, Doc(s.nextId, sp));
    InsertDistinctBy(s.suppliers, SupplierModel.CodeOf, Doc(s.nextId, sp));
  }

  /** Storing a valid student under a fresh identifier and an unused roll
      number keeps the store consistent. */
  lemma AddStudent(s: Snapshot, st: StudentModel.Student)
    requires Consistent(s) && StudentModel.Valid(st)
    requires !Taken(s.students, StudentModel.RollNumberOf, st.rollNumber, None)
    ensures Consistent(s.(students := s.students + [Doc(s.nextId, st)], nextId := s.nextId + 1))
  {
    InsertKeyed(s.students, s.nextId, Doc(s.nextId, st));
    InsertAll(s.students, StudentModel.Valid, Doc(s.nextId, st));
    InsertDistinctBy(s.students, StudentModel.RollNumberOf, Doc(s.nextId, st));
  }

  /** Same documents in the same order: only stock levels change. */
  ghost predicate SameCatalogue(ps: seq<Doc<ProductModel.Product>>, qs: seq<Doc<ProductModel.Product>>)
  {
    |qs| == |ps|
    && forall k :: 0 <= k < |ps| ==> qs[k].id == ps[k].id && qs[k].body == ps[k].body.(stock := qs[k].body.stock)
  }

  /** Two catalogues that differ only in stock levels find the same
      position for every id. */
  lemma {:induction false} FindSame(ps: seq<Doc<ProductModel.Product>>, qs: seq<Doc<ProductModel.Product>>, id: Id)
    requires SameCatalogue(ps, qs)
    ensures Find(qs, id) == Find(ps, id)
  {
    if ps != [] {
      assert SameCatalogue(ps[1..], qs[1..]);
      FindSame(ps[1..], qs[1..], id);
    }
  }

  /** Replacing the catalogue by one that differs only in stock levels,
      all of them non-negative, keeps the store consistent. */
  lemma RestockConsistent(s: Snapshot, qs: seq<Doc<ProductModel.Product>>)
    requires Consistent(s) && SameCatalogue(s.products, qs) && All(qs, ProductModel.Valid)
    ensures Consistent(s.(products := qs))
  {
    assert forall k :: 0 <= k < |qs| ==> ProductModel.SkuOf(qs[k].body) == ProductModel.SkuOf(s.products[k].body);
  }

  /** Storing a valid invoice under a fresh identifier and an unused number
      keeps the store consistent. */
  lemma AddInvoice(s: Snapshot, inv: InvoiceModel.Invoice)
    requires Consistent(s) && InvoiceModel.Valid(inv)
    requires !Taken(s.invoices, InvoiceModel.NumberOf, inv.invoiceNumber, None)
    ensures Consistent(s.(invoices := s.invoices + [Doc(s.nextId, inv)], nextId := s.nextId + 1))
  {
    InsertKeyed(s.invoices, s.nextId, Doc(s.nextId, inv));
    InsertAll(s.invoices, InvoiceModel.Valid, Doc(s.nextId, inv));
    InsertDistinctBy(s.invoices, InvoiceModel.NumberOf, Doc(s.nextId, inv));
  }

  /** Storing a valid commission under a fresh identifier keeps the store
      consistent. */
  lemma AddCommission(s: Snapshot, c: CommissionModel.Commission)
    requires Consistent(s) && CommissionModel.Valid(c)
    ensures Consistent(s.(commissions := s.commissions + [Doc(s.nextId, c)], nextId := s.nextId + 1))
  {
    InsertKeyed(s.commissions, s.nextId, Doc(s.nextId, c));
    InsertAll(s.commissions, CommissionModel.Valid, Doc(s.nextId, c));
  }

  /** Storing an admin under a fresh identifier and an unused email keeps
      the store consistent. */
  lemma AddAdmin(s: Snapshot, a: AdminModel.Admin)
    requires Consistent(s)
    requires !Taken(s.admins, AdminModel.EmailOf, a.email, None)
    ensures Consistent(s.(admins := s.admins + [Doc(s.nextId, a)], nextId := s.nextId + 1))
  {
    InsertKeyed(s.admins, s.nextId, Doc(s.nextId, a));
    InsertDistinctBy(s.admins, AdminModel.EmailOf, Doc(s.nextId, a));
  }

  class Store {
    var schools: seq<Doc<SchoolModel.School>>
    var students: seq<Doc<StudentModel.Student>>
    var categories: seq<Doc<CategoryModel.Category>>
    var products: seq<Doc<ProductModel.Product>>
    var suppliers: seq<Doc<SupplierModel.Supplier>>
    var purchases: seq<Doc<PurchaseModel.Purchase>>
    var invoices: seq<Doc<InvoiceModel.Invoice>>
    var commissions: seq<Doc<CommissionModel.Commission>>
    var admins: seq<Doc<AdminModel.Admin>>
    var nextId: Id

    function State(): Snapshot
      reads this
    {
      Snapshot(schools, students, categories, products, suppliers, purchases, invoices,
               commissions, admins, nextId)
    }

    ghost predicate Valid()
      reads this
    {
      Consistent(State())
    }

    /** An empty database. */
    constructor ()
      ensures Valid()
      ensures State() == Snapshot([], [], [], [], [], [], [], [], [], 0)
    {
      schools, students, categories, products := [], [], [], [];
      suppliers, purchases, invoices, commissions, admins := [], [], [], [], [];
      nextId := 0;
    }
  }
}
