/** Which operations a tree replica holds: per peer a contiguous run plus sparse dots. */
module TreeFrontier {
  import opened TextOrder

  datatype DotRange = DotRange(contiguous: int, sparse: set<int>) {
    predicate Contains(counter: int) {
      counter <= contiguous || counter in sparse
    }

    /** In lowest terms: nothing sparse could be folded into the run. */
    ghost predicate Reduced() {
      0 <= contiguous && forall c :: c in sparse ==> contiguous + 1 < c
    }

    method Observe(counter: int) returns (r: DotRange)
      requires Reduced()
      ensures r.Reduced()
      ensures forall c :: r.Contains(c) <==> Contains(c) || c == counter
    {
      if counter <= contiguous { return this; }
      var run, dots := contiguous, sparse + {counter};
      while run + 1 in dots
        invariant contiguous <= run
        invariant forall c :: c in dots ==> run < c
        invariant forall c :: (c <= run || c in dots) <==> (c <= contiguous || c in sparse || c == counter)
        decreases dots
      {
        dots := dots - {run + 1};
        run := run + 1;
      }
      r := DotRange(run, dots);
    }
  }

  type Frontier = map<int, DotRange>

  predicate Contains(f: Frontier, id: OpId) {
    id.peer in f && f[id.peer].Contains(id.counter)
  }

  ghost predicate Reduced(f: Frontier) {
    forall p :: p in f ==> f[p].Reduced()
  }

  method Observe(f: Frontier, id: OpId) returns (r: Frontier)
    requires Reduced(f) && 0 < id.counter
    ensures Reduced(r)
    ensures forall x: OpId :: 0 < x.counter ==> (Contains(r, x) <==> Contains(f, x) || x == id)
  {
    var range := if id.peer in f then f[id.peer] else DotRange(0, {});
    range := range.Observe(id.counter);
    r := f[id.peer := range];
  }
}
