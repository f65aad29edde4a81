/** The three selectors of the dashboard and the conjunctive filter they
    drive (app.py:133-139). A selector set to its sentinel ('Todas' for
    Marca and Ubicacion, 'Todos' for Producto) places no constraint; any
    other selected value keeps the rows whose field equals it. */
module Filters {
  import opened Seqs
  import opened Cells
  import opened Loader

  const AllMarcas: string := "Todas"
  const AllUbicaciones: string := "Todas"
  const AllProductos: string := "Todos"

  /** The three key columns of a record that a selector or a group-by can
      name. */
  datatype Field = MarcaField | UbicacionField | ProductoField

  function KeyOf(r: Record, f: Field): Cell {
    match f
    case MarcaField => r.marca
    case UbicacionField => r.ubicacion
    case ProductoField => r.producto
  }

  /** One key column of the records, `df[field]`, in row order. */
  function Column(rs: seq<Record>, f: Field): seq<Cell> {
    seq(|rs|, i requires 0 <= i < |rs| => KeyOf(rs[i], f))
  }

  /** A value occurs in a key column exactly when some record carries it. */
  lemma ColumnMember(rs: seq<Record>, f: Field, k: Cell)
    ensures k in Column(rs, f) <==> exists x :: x in rs && KeyOf(x, f) == k
  {
    if k in Column(rs, f) {
      var i :| 0 <= i < |rs| && Column(rs, f)[i] == k;
      assert rs[i] in rs;
    }
    if exists x :: x in rs && KeyOf(x, f) == k {
      var x :| x in rs && KeyOf(x, f) == k;
      var i :| 0 <= i < |rs| && rs[i] == x;
      assert Column(rs, f)[i] == k;
    }
  }

  /** The sentinel option of the selector on a field. */
  function SentinelOf(f: Field): string {
    match f
    case MarcaField => AllMarcas
    case UbicacionField => AllUbicaciones
    case ProductoField => AllProductos
  }

  /** The values picked in the three select boxes. */
  datatype Selection = Selection(marca: Cell, ubicacion: Cell, producto: Cell)

  function Picked(sel: Selection, f: Field): Cell {
    match f
    case MarcaField => sel.marca
    case UbicacionField => sel.ubicacion
    case ProductoField => sel.producto
  }

  /** The selector on `f` constrains nothing. */
  predicate Unconstrained(sel: Selection, f: Field) {
    Picked(sel, f) == Text(SentinelOf(f))
  }

  /** Every selector is on its sentinel. */
  predicate NoConstraint(sel: Selection) {
    Unconstrained(sel, MarcaField) && Unconstrained(sel, UbicacionField) &&
    Unconstrained(sel, ProductoField)
  }

  /** A record passes the selector on `f`. */
  predicate Passes(sel: Selection, f: Field, r: Record) {
    Unconstrained(sel, f) || KeyOf(r, f) == Picked(sel, f)
  }

  /** A record passes all three selectors. */
  predicate Matches(sel: Selection, r: Record) {
    Passes(sel, MarcaField, r) && Passes(sel, UbicacionField, r) && Passes(sel, ProductoField, r)
  }

  /** The boolean mask `df[field] == value`. */
  function FieldIs(f: Field, v: Cell): Record -> bool {
    r => KeyOf(r, f) == v
  }

  /** The mask of the selector on `f`. */
  function PassMask(sel: Selection, f: Field): Record -> bool {
    r => Passes(sel, f, r)
  }

  /** The mask of the Marca and Ubicacion selectors together. */
  function MarcaUbicacionMask(sel: Selection): Record -> bool {
    r => Passes(sel, MarcaField, r) && Passes(sel, UbicacionField, r)
  }

  /** The mask that all three selectors together compute. */
  function MatchMask(sel: Selection): Record -> bool {
    r => Matches(sel, r)
  }

  /** One `if selected != sentinel: df = df[df[field] == selected]` step. */
  function FilterBy(rs: seq<Record>, sel: Selection, f: Field): (r: seq<Record>)
    ensures IsSubseq(r, rs)
    ensures forall x :: x in r <==> x in rs && Passes(sel, f, x)
    ensures Unconstrained(sel, f) ==> r == rs
  {
    if Unconstrained(sel, f) then
      SubseqReflexive(rs);
      rs
    else
      Keep(rs, FieldIs(f, Picked(sel, f)))
  }

  /** The filtered frame: an order-preserving selection of exactly the
      records that pass every selector, and the whole inventory when
      every selector is on its sentinel. */
  function ApplyFilters(rs: seq<Record>, sel: Selection): (r: seq<Record>)
    ensures IsSubseq(r, rs)
    ensures forall x :: x in r <==> x in rs && Matches(sel, x)
    ensures NoConstraint(sel) ==> r == rs
  {
    var byMarca := FilterBy(rs, sel, MarcaField);
    var byUbicacion := FilterBy(byMarca, sel, UbicacionField);
    var byProducto := FilterBy(byUbicacion, sel, ProductoField);
    SubseqTransitive(byUbicacion, byMarca, rs);
    SubseqTransitive(byProducto, byUbicacion, rs);
    byProducto
  }

  /** One filter step is the selection by its selector's mask, whether the
      selector is on its sentinel or not. */
  lemma FilterByMask(rs: seq<Record>, sel: Selection, f: Field)
    ensures FilterBy(rs, sel, f) == Keep(rs, PassMask(sel, f))
  {
    if Unconstrained(sel, f) {
      KeepAll(rs, PassMask(sel, f));
    } else {
      KeepCongruent(rs, FieldIs(f, Picked(sel, f)), PassMask(sel, f));
    }
  }

  /** The three successive filters select exactly what the single mask
      "matches every selector" selects, so the order of the three `if`
      blocks is immaterial and every occurrence of a matching record is
      kept. */
  lemma ApplyFiltersOneMask(rs: seq<Record>, sel: Selection)
    ensures ApplyFilters(rs, sel) == Keep(rs, MatchMask(sel))
  {
    var byMarca := FilterBy(rs, sel, MarcaField);
    var byUbicacion := FilterBy(byMarca, sel, UbicacionField);
    FilterByMask(rs, sel, MarcaField);
    FilterByMask(byMarca, sel, UbicacionField);
    FilterByMask(byUbicacion, sel, ProductoField);
    KeepKeep(rs, PassMask(sel, MarcaField), PassMask(sel, UbicacionField), MarcaUbicacionMask(sel));
    KeepKeep(rs, MarcaUbicacionMask(sel), PassMask(sel, ProductoField), MatchMask(sel));
  }

  /** Multiplicities: a matching record occurs in the filtered frame as
      often as in the inventory, any other record not at all. */
  lemma ApplyFiltersCounts(rs: seq<Record>, sel: Selection)
    ensures forall x :: multiset(ApplyFilters(rs, sel))[x] ==
                        if Matches(sel, x) then multiset(rs)[x] else 0
  {
    ApplyFiltersOneMask(rs, sel);
    KeepCounts(rs, MatchMask(sel));
  }
}
