/** The rewriting rules of the field-sensitive point-based heap. A heap allocation becomes the
    allocation site of its code location, weak once a site of that name is already in the
    heap environment. A field access becomes one site per (pointer, field) pair. */
module PointBasedHeap {
  import opened Wrappers

  /** Symbolic expressions, as far as the rewriting rules look at them: pointers to a heap
      location, allocation sites, and any other expression. */
  datatype Expr =
    | MemoryPointer(location: AllocationSite)
    | SiteExpr(site: AllocationSite)
    | OtherExpr(text: string)

  /** An allocation site: its types, the code location it stands for (`id`), the field it
      was accessed through (if any) and whether it is weak (it may stand for several
      locations). */
  datatype AllocationSite = AllocationSite(types: set<string>, id: string, field: Option<Expr>, weak: bool)

  /** The heap environment: for each identifier, the sites it may point to. */
  type HeapEnv = map<string, set<AllocationSite>>

  /** Some site of the environment has `name` under `nameOf`. */
  ghost predicate NameInUse(heapEnv: HeapEnv, nameOf: AllocationSite -> string, name: string) {
    exists x, s :: x in heapEnv && s in heapEnv[x] && nameOf(s) == name
  }

  /** Searches the environment for a site with the name of `id`; `nameOf` gives a site's
      name. Finds one exactly when the name is in use. */
  method AlreadyAllocated(heapEnv: HeapEnv, id: AllocationSite, nameOf: AllocationSite -> string)
    returns (r: Option<AllocationSite>)
    ensures r.Some? ==> nameOf(r.value) == nameOf(id) && exists x :: x in heapEnv && r.value in heapEnv[x]
    ensures r.None? <==> !NameInUse(heapEnv, nameOf, nameOf(id))
  {
    var todo := heapEnv.Keys;
    while todo != {}
      invariant todo <= heapEnv.Keys
      invariant forall x, s :: x in heapEnv.Keys - todo && s in heapEnv[x] ==> nameOf(s) != nameOf(id)
      decreases todo
    {
      var x :| x in todo;
      var sites := heapEnv[x];
      while sites != {}
        invariant sites <= heapEnv[x]
        invariant forall s :: s in heapEnv[x] - sites ==> nameOf(s) != nameOf(id)
        decreases sites
      {
        var site :| site in sites;
        if nameOf(site) == nameOf(id) {
          return Some(site);
        }
        sites := sites - {site};
      }
      todo := todo - {x};
    }
    return None;
  }

  /** A heap allocation at `codeLocation` is rewritten to exactly one allocation site: the one
      of that code location, with no field, weak exactly when a site of its name is already
      in the environment. */
  method VisitHeapAllocation(heapEnv: HeapEnv, types: set<string>, codeLocation: string,
                             nameOf: AllocationSite -> string)
    returns (r: set<Expr>)
    ensures |r| == 1
    ensures forall e :: e in r ==>
      && e.SiteExpr? && e.site.id == codeLocation && e.site.types == types && e.site.field.None?
      && (e.site.weak <==> NameInUse(heapEnv, nameOf, nameOf(AllocationSite(types, codeLocation, None, false))))
  {
    var id := AllocationSite(types, codeLocation, None, false);
    var found := AlreadyAllocated(heapEnv, id, nameOf);
    if found.Some? {
      r := {SiteExpr(AllocationSite(id.types, id.id, None, true))};
    } else {
      r := {SiteExpr(AllocationSite(id.types, id.id, None, false))};
    }
  }

  /** The site a field access through pointer `p` with field `child` yields: the pointed
      site's code location and weak flag, with `child` as field. */
  function FieldSite(types: set<string>, p: Expr, child: Expr): (r: Expr)
    requires p.MemoryPointer?
    ensures r.SiteExpr? && r.site.id == p.location.id && r.site.weak == p.location.weak
    ensures r.site.field == Some(child) && r.site.types == types
  {
    SiteExpr(AllocationSite(types, p.location.id, Some(child), p.location.weak))
  }

  /** A field access is rewritten to one site for each pair of a pointer among the rewritten
      receivers and a rewritten child; receivers that are not pointers contribute nothing. */
  method VisitAccessChild(types: set<string>, receiver: set<Expr>, child: set<Expr>) returns (r: set<Expr>)
    ensures forall e :: e in r <==>
      exists p, c :: p in receiver && p.MemoryPointer? && c in child && e == FieldSite(types, p, c)
    ensures receiver == {} || child == {} ==> r == {}
  {
    r := {};
    var todo := receiver;
    while todo != {}
      invariant todo <= receiver
      invariant forall e :: e in r <==>
        exists p, c :: p in receiver - todo && p.MemoryPointer? && c in child && e == FieldSite(types, p, c)
      decreases todo
    {
      var p :| p in todo;
      if p.MemoryPointer? {
        var children := child;
        ghost var before := r;
        while children != {}
          invariant children <= child
          invariant forall e :: e in r <==>
            || e in before
            || exists c :: c in child - children && e == FieldSite(types, p, c)
          decreases children
        {
          var c :| c in children;
          r := r + {FieldSite(types, p, c)};
          children := children - {c};
        }
      }
      todo := todo - {p};
    }
  }
}
