/**
 A service binding: one mounted secret bundle tagged with the technology kind it
 describes, and the ordered collection of such bindings with its query by kind.
 */
module Bindings {
  import opened Wrappers

  /** The raw key/value content of a binding; absent keys are simply absent. */
  type Secret = map<string, string>

  datatype Binding = Binding(name: string, kind: string, provider: string, secret: Secret)

  /** `Map.get` on a secret: the value under `key`, or `null` when there is none. */
  function Get(secret: Secret, key: string): (r: Option<string>)
    ensures r.Some? <==> key in secret
    ensures r.Some? ==> r.value == secret[key]
  {
    if key in secret then Some(secret[key]) else None
  }

  /** The bindings of kind `kind` (case-sensitive), in discovery order. */
  function FilterBindings(bindings: seq<Binding>, kind: string): (r: seq<Binding>)
    ensures |r| <= |bindings|
    ensures forall i :: 0 <= i < |r| ==> r[i].kind == kind
    ensures forall b :: b in r <==> b in bindings && b.kind == kind
  {
    if |bindings| == 0 then []
    else
      var last := bindings[|bindings| - 1];
      FilterBindings(bindings[..|bindings| - 1], kind) + (if last.kind == kind then [last] else [])
  }

  /** Filtering commutes with concatenation, so it keeps the relative order of what it keeps. */
  lemma {:induction false} FilterAppend(a: seq<Binding>, b: seq<Binding>, kind: string)
    ensures FilterBindings(a + b, kind) == FilterBindings(a, kind) + FilterBindings(b, kind)
  {
    if |b| == 0 {
      assert a + b == a;
    } else {
      var last := b[|b| - 1];
      assert (a + b)[..|a + b| - 1] == a + b[..|b| - 1];
      assert (a + b)[|a + b| - 1] == last;
      FilterAppend(a, b[..|b| - 1], kind);
    }
  }

  /** A binding of another kind, wherever it stands, is dropped by the filter. */
  lemma {:induction false} FilterSkipsOtherKind(a: seq<Binding>, b: Binding, c: seq<Binding>, kind: string)
    requires b.kind != kind
    ensures FilterBindings(a + [b] + c, kind) == FilterBindings(a + c, kind)
  {
    var fa := FilterBindings(a, kind);
    assert FilterBindings([b], kind) == [] by {
      assert [b][..0] == [];
    }
    FilterAppend(a, [b], kind);
    assert FilterBindings(a + [b], kind) == fa;
    FilterAppend(a + [b], c, kind);
    FilterAppend(a, c, kind);
  }

  /** Filtering twice by the same kind filters nothing more. */
  lemma {:induction false} FilterIdempotent(bindings: seq<Binding>, kind: string)
    ensures FilterBindings(FilterBindings(bindings, kind), kind) == FilterBindings(bindings, kind)
  {
    if |bindings| > 0 {
      var init := bindings[..|bindings| - 1];
      var last := bindings[|bindings| - 1];
      var tail := if last.kind == kind then [last] else [];
      FilterIdempotent(init, kind);
      FilterAppend(FilterBindings(init, kind), tail, kind);
      if last.kind == kind {
        assert FilterBindings([last], kind) == [last] by {
          assert [last][..0] == [];
        }
      }
    }
  }
}
