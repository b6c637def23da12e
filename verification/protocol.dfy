/**
  Protocol documents: the initial state and the transitions that the legacy
  engine and the replay verifier read out of a compiled specification.
 */
module Protocol {
  import opened Prelude
  import opened Json

  datatype Edge = Edge(fromState: string, toState: string)

  /** `d[name]`; `None` is the KeyError. */
  function Field(d: Value, name: string): Option<Value> {
    if d.Dict? then Find(d.entries, name) else None
  }

  function Find(es: seq<Entry>, name: string): (r: Option<Value>)
    ensures r.Some? ==> Entry(Str(name), r.value) in es
    ensures r.None? ==> forall i :: 0 <= i < |es| ==> es[i].key != Str(name)
  {
    if es == [] then None
    else if es[0].key == Str(name) then Some(es[0].value)
    else Find(es[1..], name)
  }

  function TextField(d: Value, name: string): Option<string> {
    match Field(d, name)
    case Some(Str(s)) => Some(s)
    case _ => None
  }

  /** Both states can be read; they need not be texts. */
  predicate HasStates(t: Value) {
    Field(t, "from_state").Some? && Field(t, "to_state").Some?
  }

  /** The edge of a transition between texts; any other equals no pair of states. */
  function EdgeOf(t: Value): seq<Edge> {
    var f, g := TextField(t, "from_state"), TextField(t, "to_state");
    if f.Some? && g.Some? then [Edge(f.value, g.value)] else []
  }

  /** The edges of all transitions; `None` if reading one raises a KeyError. */
  function EdgesOf(ts: seq<Value>): Option<seq<Edge>> {
    if ts == [] then Some([])
    else
      var tail := EdgesOf(ts[1..]);
      if HasStates(ts[0]) && tail.Some? then Some(EdgeOf(ts[0]) + tail.value) else None
  }

  /** What the engine uses of a specification; `None` where reading it raises. */
  datatype Spec = Spec(initial: Option<string>, edges: Option<seq<Edge>>)

  function SpecOf(d: Value): Spec {
    Spec(TextField(d, "initial_state"),
         match Field(d, "transitions")
         case Some(List(ts)) => EdgesOf(ts)
         case _ => None)
  }

  // ---- Documents that differ only in key order mean the same ----

  lemma SameIsSymmetric(a: Value, b: Value)
    requires Validated(a) && Validated(b) && IsPython(a) && IsPython(b) && Same(a, b)
    ensures Same(b, a)
  {
    SortKeysOfSame(a, b);
    SameOfSortKeys(b, a);
  }

  ghost predicate BothOrNeither(x: Option<Value>, y: Option<Value>) {
    (x.Some? <==> y.Some?)
    && (x.Some? && y.Some? ==> Same(x.value, y.value) && Document(x.value) && Document(y.value))
  }

  predicate Document(d: Value) {
    Validated(d) && IsPython(d)
  }

  lemma FieldOfSame(a: Value, b: Value, name: string)
    requires Document(a) && Document(b) && Same(a, b)
    ensures BothOrNeither(Field(a, name), Field(b, name))
  {
    if Field(a, name).None? && Field(b, name).Some? { SameIsSymmetric(a, b); }
  }

  lemma EdgeOfSame(a: Value, b: Value)
    requires Document(a) && Document(b) && Same(a, b)
    ensures HasStates(a) == HasStates(b) && EdgeOf(a) == EdgeOf(b)
  {
    FieldOfSame(a, b, "from_state");
    FieldOfSame(a, b, "to_state");
  }

  lemma {:induction false} EdgesOfSame(xs: seq<Value>, ys: seq<Value>)
    requires |xs| == |ys| && forall i :: 0 <= i < |xs| ==> Document(xs[i]) && Document(ys[i]) && Same(xs[i], ys[i])
    ensures EdgesOf(xs) == EdgesOf(ys)
  {
    if xs != [] {
      EdgeOfSame(xs[0], ys[0]);
      EdgesOfSame(xs[1..], ys[1..]);
    }
  }

  /** Documents that are the same value up to key order specify the same protocol. */
  lemma SameDocumentSameSpec(a: Value, b: Value)
    requires Document(a) && Document(b) && Same(a, b)
    ensures SpecOf(a) == SpecOf(b)
  {
    FieldOfSame(a, b, "initial_state");
    FieldOfSame(a, b, "transitions");
    var x, y := Field(a, "transitions"), Field(b, "transitions");
    if x.Some? && x.value.List? {
      forall i | 0 <= i < |x.value.items| ensures
        Document(x.value.items[i]) && Document(y.value.items[i]) && Same(x.value.items[i], y.value.items[i]) {}
      EdgesOfSame(x.value.items, y.value.items);
    }
  }

  // ---- Walks ----

  predicate Allows(spec: Spec, from: string, to: string) {
    spec.edges.Some? && Edge(from, to) in spec.edges.value
  }

  /** The state before step k of a run, and after all of it. */
  function StateAt(spec: Spec, steps: seq<Edge>, k: nat): Option<string>
    requires k <= |steps|
  {
    if k == 0 then spec.initial else Some(steps[k - 1].toState)
  }

  ghost predicate StepAllowed(spec: Spec, steps: seq<Edge>, k: nat)
    requires k < |steps|
  {
    StateAt(spec, steps, k) == Some(steps[k].fromState) && Allows(spec, steps[k].fromState, steps[k].toState)
  }

  /** A walk in the protocol from its initial state. */
  ghost predicate Walk(spec: Spec, steps: seq<Edge>) {
    forall k :: 0 <= k < |steps| ==> StepAllowed(spec, steps, k)
  }

  lemma WalkAppend(spec: Spec, steps: seq<Edge>, e: Edge)
    requires Walk(spec, steps) && StateAt(spec, steps, |steps|) == Some(e.fromState) && Allows(spec, e.fromState, e.toState)
    ensures Walk(spec, steps + [e])
    ensures StateAt(spec, steps + [e], |steps| + 1) == Some(e.toState)
  {
    var all := steps + [e];
    forall k | 0 <= k < |all| ensures StepAllowed(spec, all, k) {
      if k < |steps| { assert StepAllowed(spec, steps, k); }
    }
  }
}
