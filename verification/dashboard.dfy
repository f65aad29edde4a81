/** The module-level script after loading (app.py:101-234): option lists
    for the three select boxes, the filter, and the data behind each view
    of the dashboard. Rendering is left out; each view is the frame it
    would render. */
module Dashboard {
  import opened Seqs
  import opened Cells
  import opened Loader
  import opened Filters
  import opened Options
  import opened Groups
  import opened Ranking

  /** What the page shows below the filters: the "no data" warning, or
      the detail table, the per-brand table in the expander, the pie by
      location of a selected product, the bar chart and the pie by
      brand. */
  datatype Page =
    | NoData
    | Views(detail: seq<Record>, brandDetail: Option<seq<Record>>,
            byUbicacion: Option<seq<Group>>, bar: seq<Record>, byMarca: seq<Group>)

  /** The views of a filtered, non-empty frame (app.py:143-234). */
  function Build(rs: seq<Record>, sel: Selection): (p: Page)
    ensures p.NoData? <==> forall x :: x in rs ==> !Matches(sel, x)
    ensures p.Views? ==>
              (p.brandDetail.Some? <==> !Unconstrained(sel, MarcaField) && Unconstrained(sel, ProductoField))
    ensures p.Views? ==> (p.byUbicacion.Some? <==> !Unconstrained(sel, ProductoField))
    ensures p.Views? && p.byUbicacion.Some? ==> |p.byUbicacion.value| > 0
    ensures p.Views? && Unconstrained(sel, ProductoField) ==> |p.bar| == Min(BarLimit, |p.detail|)
    ensures p.Views? && !Unconstrained(sel, ProductoField) ==>
              forall x :: x in p.bar ==> x.producto == sel.producto
    ensures p.Views? && !Unconstrained(sel, ProductoField) ==>
              IsSubseq(p.bar, rs) &&
              forall x :: multiset(p.bar)[x] == if Matches(sel, x) then multiset(rs)[x] else 0
    ensures p.Views? && p.brandDetail.Some? ==> p.brandDetail.value == p.detail
  {
    var filtered := ApplyFilters(rs, sel);
    if |filtered| == 0 then NoData
    else
      assert filtered[0] in filtered;
      ApplyFiltersCounts(rs, sel);
      var detail := SortByBoxes(filtered);
      Views(detail,
            if !Unconstrained(sel, MarcaField) && Unconstrained(sel, ProductoField) then Some(detail) else None,
            if !Unconstrained(sel, ProductoField) then Some(GroupSum(filtered, UbicacionField)) else None,
            if Unconstrained(sel, ProductoField) then Top(filtered, BarLimit) else filtered,
            GroupSum(filtered, MarcaField))
  }

  /** The detail table holds each matching record as often as the
      inventory does, and nothing else, most boxes first. */
  lemma DetailTable(rs: seq<Record>, sel: Selection)
    ensures Build(rs, sel).Views? ==> NonIncreasing(Build(rs, sel).detail)
    ensures Build(rs, sel).Views? ==>
              forall x :: multiset(Build(rs, sel).detail)[x] ==
                          if Matches(sel, x) then multiset(rs)[x] else 0
  {
    ApplyFiltersCounts(rs, sel);
  }

  /** With no product selected, the bar chart is the top of the detail
      table: the same sort, cut after ten rows. */
  lemma BarIsTopOfDetail(rs: seq<Record>, sel: Selection)
    ensures Build(rs, sel).Views? && Unconstrained(sel, ProductoField) ==>
              Build(rs, sel).bar == Build(rs, sel).detail[..|Build(rs, sel).bar|]
  {
  }

  /** The brand pie: one slice per brand among the matching records, the
      slices adding up to all their boxes; a selected brand gives a single
      slice. */
  lemma BrandPie(rs: seq<Record>, sel: Selection)
    ensures Build(rs, sel).Views? ==> SumBoxes(Build(rs, sel).byMarca) == Total(ApplyFilters(rs, sel))
    ensures Build(rs, sel).Views? ==>
              forall k :: k in Keys(Build(rs, sel).byMarca) <==>
                          exists x :: x in rs && Matches(sel, x) && x.marca == k
    ensures Build(rs, sel).Views? ==>
              DistinctKeys(Build(rs, sel).byMarca) &&
              forall g :: g in Build(rs, sel).byMarca ==>
                            g.boxes == TotalWhere(ApplyFilters(rs, sel), MarcaField, g.key)
    ensures Build(rs, sel).Views? && !Unconstrained(sel, MarcaField) ==>
              Keys(Build(rs, sel).byMarca) == [sel.marca]
  {
    var filtered := ApplyFilters(rs, sel);
    var groups := GroupSum(filtered, MarcaField);
    GroupSumTotals(filtered, MarcaField);
    GroupSumConserves(filtered, MarcaField);
    GroupKeys(rs, sel, MarcaField);
    if |filtered| > 0 && !Unconstrained(sel, MarcaField) {
      forall i | 0 <= i < |groups|
        ensures groups[i].key == sel.marca
      {
        assert Keys(groups)[i] in Keys(groups);
      }
      SingleKey(groups, sel.marca);
    }
  }

  /** The keys of a grouping of the filtered frame are the values the
      matching records carry. */
  lemma GroupKeys(rs: seq<Record>, sel: Selection, f: Field)
    ensures forall k :: k in Keys(GroupSum(ApplyFilters(rs, sel), f)) <==>
                        exists x :: x in rs && Matches(sel, x) && KeyOf(x, f) == k
  {
    forall k
      ensures k in Column(ApplyFilters(rs, sel), f) <==>
              exists x :: x in rs && Matches(sel, x) && KeyOf(x, f) == k
    {
      ColumnMember(ApplyFilters(rs, sel), f, k);
    }
  }

  /** Distinct keys that are all equal to `k`, and at least one of them,
      are exactly `[k]`. */
  lemma SingleKey(gs: seq<Group>, k: Cell)
    requires DistinctKeys(gs) && |gs| > 0
    requires forall i :: 0 <= i < |gs| ==> gs[i].key == k
    ensures Keys(gs) == [k]
  {
    assert gs[0].key == k && gs[|gs| - 1].key == k;
    assert |gs| == 1;
    assert Keys(gs)[0] == k;
  }

  /** The location pie of a selected product: one slice per location of
      the matching records, each holding the boxes stored there, all
      together the boxes of the matching records. */
  lemma LocationPie(rs: seq<Record>, sel: Selection)
    ensures Build(rs, sel).Views? && Build(rs, sel).byUbicacion.Some? ==>
              forall k :: k in Keys(Build(rs, sel).byUbicacion.value) <==>
                          exists x :: x in rs && Matches(sel, x) && x.ubicacion == k
    ensures Build(rs, sel).Views? && Build(rs, sel).byUbicacion.Some? ==>
              DistinctKeys(Build(rs, sel).byUbicacion.value)
    ensures Build(rs, sel).Views? && Build(rs, sel).byUbicacion.Some? ==>
              forall g :: g in Build(rs, sel).byUbicacion.value ==>
                          g.boxes == TotalWhere(ApplyFilters(rs, sel), UbicacionField, g.key)
    ensures Build(rs, sel).Views? && Build(rs, sel).byUbicacion.Some? ==>
              SumBoxes(Build(rs, sel).byUbicacion.value) == Total(ApplyFilters(rs, sel))
  {
    var filtered := ApplyFilters(rs, sel);
    GroupSumTotals(filtered, UbicacionField);
    GroupSumConserves(filtered, UbicacionField);
    GroupKeys(rs, sel, UbicacionField);
  }

  /** Picking one value offered for a single select box, the other two
      left on their sentinels, always shows data: the "no data" warning
      needs at least two selectors to disagree. */
  lemma SingleSelectionHasData(rs: seq<Record>, sel: Selection, f: Field)
    requires forall h :: h != f ==> Unconstrained(sel, h)
    requires Picked(sel, f) in Column(rs, f)
    ensures Build(rs, sel).Views?
  {
    ColumnMember(rs, f, Picked(sel, f));
    var x :| x in rs && KeyOf(x, f) == Picked(sel, f);
    assert Passes(sel, MarcaField, x) && Passes(sel, UbicacionField, x) && Passes(sel, ProductoField, x);
  }

  // ---------------------------------------------------------------------
  // The whole script

  /** Why the script stops: the loader's exits, or the `TypeError` of
      `sorted` on one of the three option lists. */
  datatype AppError =
    | LoadFailed(cause: LoadError)
    | UnsortableColumn(field: Field, unsortable: OptionsError)

  /** The three option lists and the page below them. */
  datatype Screen = Screen(marcas: seq<Cell>, ubicaciones: seq<Cell>, productos: seq<Cell>, page: Page)

  /** The three key columns can each be sorted. */
  predicate AllUniform(rs: seq<Record>) {
    Uniform(Column(rs, MarcaField)) && Uniform(Column(rs, UbicacionField)) &&
    Uniform(Column(rs, ProductoField))
  }

  /** The key columns of loaded records hold no empty cell. */
  lemma ColumnFilled(rs: seq<Record>, f: Field)
    requires forall rec :: rec in rs ==> rec.marca != Null && rec.producto != Null && rec.ubicacion != Null
    ensures forall c :: c in Column(rs, f) ==> c != Null
  {
    forall c | c in Column(rs, f)
      ensures c != Null
    {
      ColumnMember(rs, f, c);
    }
  }

  /** A select box's list for field `f`: the sentinel, then every value
      of the column once, ascending. */
  ghost predicate Offers(options: seq<Cell>, rs: seq<Record>, f: Field) {
    |options| > 0 && options[0] == Text(SentinelOf(f)) &&
    Ascending(options[1..]) && forall c :: c in options[1..] <==> c in Column(rs, f)
  }

  /** The option list of a select box, its `TypeError` tagged with the
      field. */
  function OptionsFor(rs: seq<Record>, f: Field): (r: Result<seq<Cell>, AppError>)
    requires forall c :: c in Column(rs, f) ==> c != Null
    ensures r.Ok? <==> Uniform(Column(rs, f))
    ensures r.Ok? ==> Offers(r.value, rs, f)
    ensures r.Err? ==> r.error.UnsortableColumn? && r.error.field == f
  {
    match SelectOptions(SentinelOf(f), Column(rs, f))
    case Ok(options) => Ok(options)
    case Err(e) => Err(UnsortableColumn(f, e))
  }

  /** One run of the script for a given selection: load, build the three
      option lists in the order Marca, Ubicacion, Producto, filter and
      build the page. */
  function App(g: Grid, sel: Selection): (r: Result<Screen, AppError>)
    ensures Load(g).Err? ==> r == Err(LoadFailed(Load(g).error))
    ensures r.Err? && r.error.UnsortableColumn? ==>
              Load(g).Ok? && !Uniform(Column(Load(g).value, r.error.field))
    ensures Load(g).Ok? && AllUniform(Load(g).value) ==> r.Ok?
    ensures r.Err? && r.error.UnsortableColumn? && r.error.field != MarcaField ==>
              Load(g).Ok? && Uniform(Column(Load(g).value, MarcaField))
    ensures r.Err? && r.error.UnsortableColumn? && r.error.field == ProductoField ==>
              Load(g).Ok? && Uniform(Column(Load(g).value, UbicacionField))
    ensures r.Ok? ==> Load(g).Ok?
    ensures r.Ok? ==>
              Load(g).Ok? && Offers(r.value.marcas, Load(g).value, MarcaField) &&
              Offers(r.value.ubicaciones, Load(g).value, UbicacionField) &&
              Offers(r.value.productos, Load(g).value, ProductoField)
    ensures r.Ok? ==> Load(g).Ok? && r.value.page == Build(Load(g).value, sel)
    ensures r.Ok? && Load(g).Ok? ==>
              (r.value.page.NoData? <==> forall x :: x in Load(g).value ==> !Matches(sel, x))
  {
    match Load(g)
    case Err(e) => Err(LoadFailed(e))
    case Ok(rs) =>
      ColumnFilled(rs, MarcaField);
      ColumnFilled(rs, UbicacionField);
      ColumnFilled(rs, ProductoField);
      match OptionsFor(rs, MarcaField)
      case Err(e) => Err(e)
      case Ok(marcas) =>
        match OptionsFor(rs, UbicacionField)
        case Err(e) => Err(e)
        case Ok(ubicaciones) =>
          match OptionsFor(rs, ProductoField)
          case Err(e) => Err(e)
          case Ok(productos) => Ok(Screen(marcas, ubicaciones, productos, Build(rs, sel)))
  }
}
