/**
 * The reveal sequencer of the business-card overlay (src/main.js).
 *
 * On `targetFound` the card text is shown at full opacity, the four triangle layers
 * start pulsing and a single fade timer is (re)armed for 10 s later; on `targetLost`
 * the timer is cleared, the pulses stop and the text is restored. The layers are found
 * or created by a get-or-create helper with a fixed depth stack. Timers are an abstract
 * set of pending handles: the event loop fires one by an explicit step.
 */
module Reveal {
  import opened Options

  /** A `setTimeout` handle. Handles start at 1, so a handle is always truthy. */
  type Handle = nat

  /**
   * An `a-image` element carrying an id: its depth, material opacity, the delay of its
   * pulse animation if it has one, and whether that pulse is running.
   */
  datatype Element = Element(id: string, z: real, opacity: real, pulseDelay: Option<int>, pulsing: bool)

  const BaseId: string := "cardBase"
  const TextId: string := "cardText"
  const TriangleIds: seq<string> := ["tri1", "tri2", "tri3", "tri4"]

  /** A layer the setup asks for: its id and its depth above the target. */
  datatype LayerSpec = LayerSpec(id: string, z: real)

  /** Depths: the base lies on the target, each later layer just above the one before. */
  const BaseZ: real := 0.000
  const TextZ: real := 0.001
  const TriangleZ: seq<real> := [0.002, 0.003, 0.004, 0.005]

  /** The six layers in creation order, bottom to top. */
  const Layers: seq<LayerSpec> := [
    LayerSpec(BaseId, BaseZ), LayerSpec(TextId, TextZ),
    LayerSpec(TriangleIds[0], TriangleZ[0]), LayerSpec(TriangleIds[1], TriangleZ[1]),
    LayerSpec(TriangleIds[2], TriangleZ[2]), LayerSpec(TriangleIds[3], TriangleZ[3])]

  /** The triangles' starting opacity and their staggered pulse delays in milliseconds. */
  const TriangleOpacity: real := 0.5
  const PulseDelaysMs: seq<int> := [0, 200, 400, 600]

  /** Milliseconds from acquisition to the start of the text fade. */
  const FadeDelayMs: int := 10000

  /** The stack has strictly increasing depth and six distinct ids. */
  lemma LayersOrdered()
    ensures |Layers| == 6
    ensures forall i, j :: 0 <= i < j < |Layers| ==> Layers[i].z < Layers[j].z
    ensures forall i, j :: 0 <= i < j < |Layers| ==> Layers[i].id != Layers[j].id
  {
    assert BaseId[4] != TextId[4];
    assert forall i :: 0 <= i < 4 ==> TriangleIds[i][0] != BaseId[0] && TriangleIds[i][0] != TextId[0];
    assert forall i, j :: 0 <= i < j < 4 ==> TriangleIds[i][3] != TriangleIds[j][3];
  }

  // ---------------------------------------------------------------------------
  // The layer registry

  /** `document.getElementById(id)`: the first element carrying `id`. */
  function FindId(els: seq<Element>, id: string): (r: Option<nat>)
    ensures r.Some? ==> r.value < |els| && els[r.value].id == id
    decreases |els|
  {
    if els == [] then None
    else if els[0].id == id then Some(0)
    else match FindId(els[1..], id)
      case None => None
      case Some(k) => Some(k + 1)
  }

  /** The element found is the first with `id`, and nothing is found exactly when no element has it. */
  lemma {:induction false} FindIdFirst(els: seq<Element>, id: string)
    ensures FindId(els, id).Some? ==> forall k :: 0 <= k < FindId(els, id).value ==> els[k].id != id
    ensures FindId(els, id).None? <==> forall k :: 0 <= k < |els| ==> els[k].id != id
    decreases |els|
  {
    if els != [] && els[0].id != id {
      FindIdFirst(els[1..], id);
      assert forall k :: 1 <= k < |els| ==> els[k] == els[1..][k - 1];
    }
  }

  /** A freshly created layer: full opacity, no pulse animation. */
  function NewLayer(id: string, z: real): Element
  {
    Element(id, z, 1.0, None, false)
  }

  /** The helper `layer(id, z)`: the registry afterwards and the element it returns. */
  function Layered(els: seq<Element>, id: string, z: real): (r: (seq<Element>, nat))
    ensures r.1 < |r.0| && r.0[r.1].id == id
    ensures FindId(els, id).Some? ==> r.0 == els && r.1 == FindId(els, id).value
    ensures FindId(els, id).None? ==> r.0 == els + [NewLayer(id, z)] && r.1 == |els|
  {
    match FindId(els, id)
    case Some(k) => (els, k)
    case None => (els + [NewLayer(id, z)], |els|)
  }

  /** Asking for a layer that now exists returns it and adds nothing, whatever the depth. */
  lemma LayeredIdempotent(els: seq<Element>, id: string, z: real, z': real)
    ensures var (els1, k1) := Layered(els, id, z);
      Layered(els1, id, z') == (els1, k1)
  {
    var (els1, k1) := Layered(els, id, z);
    if FindId(els, id).None? {
      FindIdFirst(els, id);
      FindIdFirst(els1, id);
      assert FindId(els1, id) == Some(|els|);
    }
  }

  /** The layers of `specs` asked for in order: the registry afterwards and the positions returned. */
  function StackAll(els: seq<Element>, specs: seq<LayerSpec>): (r: (seq<Element>, seq<nat>))
    ensures els <= r.0 && |r.1| == |specs|
    decreases |specs|
  {
    if specs == [] then (els, [])
    else
      var first := Layered(els, specs[0].id, specs[0].z);
      var rest := StackAll(first.0, specs[1..]);
      (rest.0, [first.1] + rest.1)
  }

  /** One call of the sequence: asking for `specs[i]` and then the rest. */
  lemma StackStep(els: seq<Element>, specs: seq<LayerSpec>, i: nat, e: seq<Element>, ks: seq<nat>)
    requires i < |specs| && |ks| == |specs| - i && ks != []
    requires var (e1, k) := Layered(els, specs[i].id, specs[i].z);
      k == ks[0] && StackAll(e1, specs[i + 1..]) == (e, ks[1..])
    ensures StackAll(els, specs[i..]) == (e, ks)
  {
    assert specs[i..][1..] == specs[i + 1..];
    assert ks == [ks[0]] + ks[1..];
  }

  /** The six `layer(...)` calls of the setup, one after the other, make up `StackAll`. */
  lemma SixCalls(e0: seq<Element>, e1: seq<Element>, e2: seq<Element>, e3: seq<Element>,
                 e4: seq<Element>, e5: seq<Element>, e6: seq<Element>,
                 k0: nat, k1: nat, k2: nat, k3: nat, k4: nat, k5: nat)
    requires Layered(e0, BaseId, BaseZ) == (e1, k0)
    requires Layered(e1, TextId, TextZ) == (e2, k1)
    requires Layered(e2, TriangleIds[0], TriangleZ[0]) == (e3, k2)
    requires Layered(e3, TriangleIds[1], TriangleZ[1]) == (e4, k3)
    requires Layered(e4, TriangleIds[2], TriangleZ[2]) == (e5, k4)
    requires Layered(e5, TriangleIds[3], TriangleZ[3]) == (e6, k5)
    ensures StackAll(e0, Layers) == (e6, [k0, k1, k2, k3, k4, k5])
  {
    assert Layers[0] == LayerSpec(BaseId, BaseZ) && Layers[1] == LayerSpec(TextId, TextZ);
    assert forall i :: 2 <= i < 6 ==> Layers[i] == LayerSpec(TriangleIds[i - 2], TriangleZ[i - 2]);
    StackSix(Layers, e0, e1, e2, e3, e4, e5, e6, k0, k1, k2, k3, k4, k5);
  }

  /** Six `Layered` steps through `specs` make up `StackAll` over it. */
  lemma StackSix(specs: seq<LayerSpec>, e0: seq<Element>, e1: seq<Element>, e2: seq<Element>,
                 e3: seq<Element>, e4: seq<Element>, e5: seq<Element>, e6: seq<Element>,
                 k0: nat, k1: nat, k2: nat, k3: nat, k4: nat, k5: nat)
    requires |specs| == 6
    requires Layered(e0, specs[0].id, specs[0].z) == (e1, k0)
    requires Layered(e1, specs[1].id, specs[1].z) == (e2, k1)
    requires Layered(e2, specs[2].id, specs[2].z) == (e3, k2)
    requires Layered(e3, specs[3].id, specs[3].z) == (e4, k3)
    requires Layered(e4, specs[4].id, specs[4].z) == (e5, k4)
    requires Layered(e5, specs[5].id, specs[5].z) == (e6, k5)
    ensures StackAll(e0, specs) == (e6, [k0, k1, k2, k3, k4, k5])
  {
    assert specs[6..] == [] && [k5][1..] == [];
    assert StackAll(e6, specs[6..]) == (e6, []);
    StackStep(e5, specs, 5, e6, [k5]);
    StackStep(e4, specs, 4, e6, [k4, k5]);
    StackStep(e3, specs, 3, e6, [k3, k4, k5]);
    StackStep(e2, specs, 2, e6, [k2, k3, k4, k5]);
    StackStep(e1, specs, 1, e6, [k1, k2, k3, k4, k5]);
    StackStep(e0, specs, 0, e6, [k0, k1, k2, k3, k4, k5]);
    assert specs[0..] == specs;
  }

  /** The new layers `specs` would append to a page that has none of them. */
  function Appended(specs: seq<LayerSpec>): seq<Element>
  {
    seq(|specs|, i requires 0 <= i < |specs| => NewLayer(specs[i].id, specs[i].z))
  }

  /** The positions `lo`, `lo + 1`, ... of `n` layers appended one after the other. */
  function Positions(lo: nat, n: nat): seq<nat>
  {
    seq(n, i requires 0 <= i < n => lo + i)
  }

  /** On a page that has none of the ids of `specs` (all distinct), each is appended in turn. */
  lemma {:induction false} StackAllFresh(els: seq<Element>, specs: seq<LayerSpec>)
    requires forall i :: 0 <= i < |specs| ==> FindId(els, specs[i].id).None?
    requires forall i, j :: 0 <= i < j < |specs| ==> specs[i].id != specs[j].id
    ensures StackAll(els, specs) == (els + Appended(specs), Positions(|els|, |specs|))
    decreases |specs|
  {
    if specs == [] {
      assert els + Appended(specs) == els;
      assert Positions(|els|, 0) == [];
    } else {
      var x := NewLayer(specs[0].id, specs[0].z);
      var e1 := els + [x];
      var rest := specs[1..];
      assert Layered(els, specs[0].id, specs[0].z) == (e1, |els|);
      FreshAfterFirst(els, specs);
      StackAllFresh(e1, rest);
      StackAllCons(els, specs);
      AppendedCons(specs);
      PositionsCons(|els|, |specs|);
      assert e1 + Appended(rest) == els + ([x] + Appended(rest));
    }
  }

  /** `Positions` starts with `lo`. */
  lemma PositionsCons(lo: nat, n: nat)
    requires n > 0
    ensures Positions(lo, n) == [lo] + Positions(lo + 1, n - 1)
  {
    assert Positions(lo, n)[1..] == Positions(lo + 1, n - 1);
  }

  /** Each position returned holds the layer asked for there. */
  lemma {:induction false} StackAllIds(els: seq<Element>, specs: seq<LayerSpec>)
    ensures var (e, ks) := StackAll(els, specs);
      forall i :: 0 <= i < |specs| ==> ks[i] < |e| && e[ks[i]].id == specs[i].id
    decreases |specs|
  {
    if specs != [] {
      var first := Layered(els, specs[0].id, specs[0].z);
      StackAllIds(first.0, specs[1..]);
      StackAllCons(els, specs);
      var (e, ks) := StackAll(els, specs);
      forall i | 0 <= i < |specs| ensures ks[i] < |e| && e[ks[i]].id == specs[i].id {
        if i > 0 {
          assert specs[1..][i - 1] == specs[i];
        }
      }
    }
  }

  /** `StackAll` asks for the first layer, then the rest. */
  lemma StackAllCons(els: seq<Element>, specs: seq<LayerSpec>)
    requires specs != []
    ensures var first := Layered(els, specs[0].id, specs[0].z);
      var rest := StackAll(first.0, specs[1..]);
      StackAll(els, specs) == (rest.0, [first.1] + rest.1)
  {
  }

  /** Appending the first spec's layer leaves the others' ids absent and distinct. */
  lemma FreshAfterFirst(els: seq<Element>, specs: seq<LayerSpec>)
    requires specs != []
    requires forall i :: 0 <= i < |specs| ==> FindId(els, specs[i].id).None?
    requires forall i, j :: 0 <= i < j < |specs| ==> specs[i].id != specs[j].id
    ensures forall i :: 0 <= i < |specs| - 1 ==>
      FindId(els + [NewLayer(specs[0].id, specs[0].z)], specs[1..][i].id).None?
    ensures forall i, j :: 0 <= i < j < |specs| - 1 ==> specs[1..][i].id != specs[1..][j].id
  {
    var x := NewLayer(specs[0].id, specs[0].z);
    forall i | 0 <= i < |specs| - 1 ensures FindId(els + [x], specs[1..][i].id).None? {
      StillAbsent(els, x, specs[i + 1].id);
    }
  }

  /** `Appended` peels off its first layer. */
  lemma AppendedCons(specs: seq<LayerSpec>)
    requires specs != []
    ensures Appended(specs) == [NewLayer(specs[0].id, specs[0].z)] + Appended(specs[1..])
  {
    var rest := specs[1..];
    forall i | 0 <= i < |rest| ensures Appended(specs)[i + 1] == Appended(rest)[i] {
      assert rest[i] == specs[i + 1];
    }
  }

  /** After the setup's six calls each id sits at the position returned for it. */
  lemma StackedLaid(els: seq<Element>)
    ensures var (e, ks) := StackAll(els, Layers);
      Laid(Stage(true, e, ks[0], ks[1], ks[2..], None, map[], 1, None))
  {
    StackAllIds(els, Layers);
    var (e, ks) := StackAll(els, Layers);
    assert Layers[0].id == BaseId && Layers[1].id == TextId;
    assert forall i :: 0 <= i < 4 ==> Layers[i + 2].id == TriangleIds[i];
  }

  /** Appending an element with another id keeps `id` absent. */
  lemma StillAbsent(els: seq<Element>, x: Element, id: string)
    requires FindId(els, id).None? && x.id != id
    ensures FindId(els + [x], id).None?
  {
    FindIdFirst(els, id);
    FindIdFirst(els + [x], id);
  }

  /**
   * On a page where none of the six layers exists yet, the setup appends all six in
   * order, so base < text < tri1 < tri2 < tri3 < tri4 in depth.
   */
  lemma FreshLayersStacked(els: seq<Element>)
    requires forall i :: 0 <= i < |Layers| ==> FindId(els, Layers[i].id).None?
    ensures var (e, ks) := StackAll(els, Layers);
      && e == els + Appended(Layers)
      && (forall i :: 0 <= i < 6 ==> ks[i] == |els| + i && e[ks[i]].z == Layers[i].z)
      && (forall i, j :: 0 <= i < j < 6 ==> e[ks[i]].z < e[ks[j]].z)
  {
    LayersOrdered();
    StackAllFresh(els, Layers);
    var (e, ks) := StackAll(els, Layers);
    forall i | 0 <= i < 6 ensures ks[i] == |els| + i && e[ks[i]].z == Layers[i].z {
      assert e[|els| + i] == Appended(Layers)[i];
    }
  }

  /** A triangle layer after the decoration: opacity 0.5 and the `i`-th pulse delay. */
  function Decorate(x: Element, i: nat): Element
    requires i < 4
  {
    x.(opacity := TriangleOpacity, pulseDelay := Some(PulseDelaysMs[i]))
  }

  /**
   * The elements after the first `n` triangles at positions `tris` have been decorated,
   * in order (a position outside the registry names no element and is skipped).
   */
  function Decorated(els: seq<Element>, tris: seq<nat>, n: nat): (r: seq<Element>)
    requires n <= 4 && n <= |tris|
    ensures |r| == |els|
    decreases n
  {
    if n == 0 then els
    else
      var e := Decorated(els, tris, n - 1);
      if tris[n - 1] < |e| then e[tris[n - 1] := Decorate(e[tris[n - 1]], n - 1)] else e
  }

  /** The decoration keeps every element's id, depth and pulse state. */
  lemma {:induction false} DecoratedKeepsIds(els: seq<Element>, tris: seq<nat>, n: nat)
    requires n <= 4 && n <= |tris|
    ensures forall k :: 0 <= k < |els| ==>
      && Decorated(els, tris, n)[k].id == els[k].id
      && Decorated(els, tris, n)[k].z == els[k].z
      && Decorated(els, tris, n)[k].pulsing == els[k].pulsing
    decreases n
  {
    if n > 0 {
      DecoratedKeepsIds(els, tris, n - 1);
    }
  }

  /**
   * With distinct triangle positions, the `i`-th triangle ends with opacity 0.5 and the
   * `i`-th pulse delay and otherwise as it was, and every other element is untouched.
   */
  lemma {:induction false} DecoratedEffect(els: seq<Element>, tris: seq<nat>, n: nat)
    requires n <= 4 && n <= |tris|
    requires forall i :: 0 <= i < n ==> tris[i] < |els|
    requires forall i, j :: 0 <= i < j < n ==> tris[i] != tris[j]
    ensures forall i :: 0 <= i < n ==> Decorated(els, tris, n)[tris[i]] == Decorate(els[tris[i]], i)
    ensures forall k :: 0 <= k < |els| && k !in tris[..n] ==> Decorated(els, tris, n)[k] == els[k]
    decreases n
  {
    if n > 0 {
      DecoratedEffect(els, tris, n - 1);
      forall k | 0 <= k < |els| && k !in tris[..n]
        ensures Decorated(els, tris, n)[k] == els[k]
      {
        assert tris[..n] == tris[..n - 1] + [tris[n - 1]];
      }
      forall i | 0 <= i < n - 1
        ensures Decorated(els, tris, n)[tris[i]] == Decorate(els[tris[i]], i)
      {
        assert tris[i] != tris[n - 1];
      }
    }
  }

  // ---------------------------------------------------------------------------
  // The sequencer's state

  /**
   * Everything the `DOMContentLoaded` closure owns. `wired` is false when the page has
   * no marker root, in which case the closure returned before wiring anything. `base`,
   * `text` and `tris` are the positions of the layer elements; `fadeTimer` is the
   * closure variable; `pending` maps each armed timer to its due time; `hud` is the HUD
   * element's `active` class, `None` when there is no HUD element.
   */
  datatype Stage = Stage(
    wired: bool,
    elements: seq<Element>,
    base: nat,
    text: nat,
    tris: seq<nat>,
    fadeTimer: Option<Handle>,
    pending: map<Handle, int>,
    nextHandle: Handle,
    hud: Option<bool>)

  ghost predicate Laid(s: Stage)
  {
    && s.base < |s.elements| && s.elements[s.base].id == BaseId
    && s.text < |s.elements| && s.elements[s.text].id == TextId
    && |s.tris| == 4
    && forall i :: 0 <= i < 4 ==> s.tris[i] < |s.elements| && s.elements[s.tris[i]].id == TriangleIds[i]
  }

  /** The six laid layers are six different elements. */
  lemma LaidDistinct(s: Stage)
    requires Laid(s)
    ensures forall i, j :: 0 <= i < j < 4 ==> s.tris[i] != s.tris[j]
    ensures s.base !in s.tris && s.text !in s.tris && s.base != s.text
  {
    assert BaseId[4] != TextId[4];
    assert forall i :: 0 <= i < 4 ==> TriangleIds[i][0] != BaseId[0] && TriangleIds[i][0] != TextId[0];
    assert forall i, j :: 0 <= i < j < 4 ==> TriangleIds[i][3] != TriangleIds[j][3];
  }

  /**
   * Once the laid layers are `e` decorated, base and text are as in `e` and each triangle is
   * its layer in `e` with opacity 0.5 and its pulse delay.
   */
  lemma LaidDecorated(s: Stage, e: seq<Element>)
    requires Laid(s) && s.elements == Decorated(e, s.tris, 4)
    ensures s.elements[s.base] == e[s.base] && s.elements[s.text] == e[s.text]
    ensures forall i :: 0 <= i < 4 ==> s.elements[s.tris[i]] == Decorate(e[s.tris[i]], i)
  {
    LaidDistinct(s);
    DecoratedEffect(e, s.tris, 4);
    assert s.tris[..4] == s.tris;
  }

  /** Only the handle held in `fadeTimer` can be pending, and only once wired. */
  ghost predicate Valid(s: Stage)
  {
    && (s.wired ==> Laid(s))
    && (!s.wired ==> s.pending == map[] && s.fadeTimer == None)
    && (forall h :: h in s.pending ==> s.fadeTimer == Some(h))
    && 1 <= s.nextHandle
    && (s.fadeTimer.Some? ==> 1 <= s.fadeTimer.value < s.nextHandle)
  }

  /** The elements with the pulse at each position in `idx` started (`on`) or stopped. */
  function Pulsed(els: seq<Element>, idx: seq<nat>, on: bool): seq<Element>
  {
    seq(|els|, k requires 0 <= k < |els| => if k in idx then els[k].(pulsing := on) else els[k])
  }

  /** `hud?.classList.add/remove('active')`. */
  function Hud(hud: Option<bool>, active: bool): Option<bool>
  {
    if hud.Some? then Some(active) else None
  }

  /** The text element at `opacity`. */
  function WithText(s: Stage, opacity: real): seq<Element>
    requires s.text < |s.elements|
  {
    s.elements[s.text := s.elements[s.text].(opacity := opacity)]
  }

  /** The timers left after `clearTimeout(fadeTimer)`. */
  function Cleared(s: Stage): map<Handle, int>
  {
    if s.fadeTimer.Some? then s.pending - {s.fadeTimer.value} else s.pending
  }

  ghost predicate TrianglesPulsing(s: Stage, on: bool)
    requires Laid(s)
  {
    forall i :: 0 <= i < 4 ==> s.elements[s.tris[i]].pulsing == on
  }

  /**
   * `targetFound` at time `now`: the HUD becomes active; `startSequence` sets the text
   * opacity to 1, starts the four pulses, clears the old fade timer and arms a new one.
   */
  function Found(s: Stage, now: int): (r: Stage)
    requires Valid(s)
    ensures Valid(r)
    ensures !s.wired ==> r == s
    ensures r.wired ==> && r.pending.Keys == {s.nextHandle}
                        && r.pending[s.nextHandle] == now + FadeDelayMs
                        && r.fadeTimer == Some(s.nextHandle)
                        && r.elements[r.text].opacity == 1.0
                        && TrianglesPulsing(r, true)
                        && r.hud == Hud(s.hud, true)
    ensures r.nextHandle >= s.nextHandle
  {
    if !s.wired then s
    else
      var els := Pulsed(WithText(s, 1.0), s.tris, true);
      s.(elements := els,
         fadeTimer := Some(s.nextHandle),
         pending := Cleared(s)[s.nextHandle := now + FadeDelayMs],
         nextHandle := s.nextHandle + 1,
         hud := Hud(s.hud, true))
  }

  /**
   * `targetLost`: the HUD loses `active`; `stopSequence` clears and forgets the fade
   * timer, stops the four pulses and restores the text opacity to 1.
   */
  function Lost(s: Stage): (r: Stage)
    requires Valid(s)
    ensures Valid(r)
    ensures !s.wired ==> r == s
    ensures r.pending == map[] && r.fadeTimer == None
    ensures r.wired ==> && r.elements[r.text].opacity == 1.0
                        && TrianglesPulsing(r, false)
                        && r.hud == Hud(s.hud, false)
    ensures r.nextHandle == s.nextHandle
  {
    if !s.wired then s
    else
      var els := Pulsed(s.elements, s.tris, false);
      var s' := s.(elements := els);
      s'.(fadeTimer := None,
          pending := Cleared(s),
          elements := WithText(s', 1.0),
          hud := Hud(s.hud, false))
  }

  /**
   * The event loop runs timer `h`: if it is still pending it emits `start-fade` on the
   * text, whose animation ends at opacity 0; a cleared or fired handle does nothing.
   */
  function Fire(s: Stage, h: Handle): (r: Stage)
    requires Valid(s)
    ensures Valid(r) && r.wired == s.wired
    ensures h !in s.pending ==> r == s
    ensures h in s.pending ==> r.pending == map[] && r.elements[r.text].opacity == 0.0
    ensures r.fadeTimer == s.fadeTimer && r.nextHandle == s.nextHandle
  {
    if h !in s.pending then s
    else s.(pending := s.pending - {h}, elements := WithText(s, 0.0))
  }

  /** At most one fade timer is ever pending. */
  lemma AtMostOnePending(s: Stage)
    requires Valid(s)
    ensures |s.pending| <= 1
  {
    if s.pending != map[] {
      var h := s.fadeTimer.value;
      assert s.pending.Keys <= {h};
      assert s.pending.Keys == {h};
    }
  }

  /** A second loss leaves exactly the state the first one left. */
  lemma LostIdempotent(s: Stage)
    requires Valid(s)
    ensures Lost(Lost(s)) == Lost(s)
  {
    var r := Lost(s);
    if r.wired {
      var r2 := Lost(r);
      assert r2.elements == r.elements;
    }
  }

  // ---------------------------------------------------------------------------
  // Runs of marker signals and timer firings

  datatype Signal = TargetFound(at: int) | TargetLost | TimerFires(h: Handle)

  function Step(s: Stage, sig: Signal): (r: Stage)
    requires Valid(s)
    ensures Valid(r)
  {
    match sig
    case TargetFound(at) => Found(s, at)
    case TargetLost => Lost(s)
    case TimerFires(h) => Fire(s, h)
  }

  /** The state after `trace`, folded from its last signal back. */
  function Run(s: Stage, trace: seq<Signal>): (r: Stage)
    requires Valid(s)
    ensures Valid(r)
    ensures r.wired == s.wired
    decreases |trace|
  {
    if trace == [] then s else Step(Run(s, trace[..|trace| - 1]), trace[|trace| - 1])
  }

  /** The most recent marker signal in `trace`, if any. */
  function LastMarker(trace: seq<Signal>): Option<Signal>
    decreases |trace|
  {
    if trace == [] then None
    else if trace[|trace| - 1].TimerFires? then LastMarker(trace[..|trace| - 1])
    else Some(trace[|trace| - 1])
  }

  /**
   * Starting with no timer pending, a pending timer after any run is the one armed by
   * the most recent marker signal, which is a `targetFound` at some time `at`; it is the
   * last handle issued and is due at `at + 10000`.
   */
  lemma {:induction false} PendingOnlyFromLatestFound(s: Stage, trace: seq<Signal>)
    requires Valid(s) && s.pending == map[]
    ensures var t := Run(s, trace);
      forall h :: h in t.pending ==>
        && LastMarker(trace).Some? && LastMarker(trace).value.TargetFound?
        && t.pending[h] == LastMarker(trace).value.at + FadeDelayMs
        && h == t.nextHandle - 1
    decreases |trace|
  {
    if trace != [] {
      var pre := trace[..|trace| - 1];
      var sig := trace[|trace| - 1];
      PendingOnlyFromLatestFound(s, pre);
      var t0 := Run(s, pre);
      assert trace[..|trace| - 1] == pre;
      match sig
      case TargetFound(at) =>
      case TargetLost =>
      case TimerFires(h) =>
        assert LastMarker(trace) == LastMarker(pre);
        assert Run(s, trace) == Fire(t0, h);
        if h in t0.pending {
          assert Run(s, trace).pending == map[];
        } else {
          assert Run(s, trace) == t0;
          forall h' | h' in t0.pending
            ensures && LastMarker(trace).Some? && LastMarker(trace).value.TargetFound?
                    && t0.pending[h'] == LastMarker(trace).value.at + FadeDelayMs
                    && h' == t0.nextHandle - 1
          {
            assert h' in Run(s, pre).pending;
            assert LastMarker(pre).Some?;
          }
        }
    }
  }

  /**
   * A fade happens only from the timer armed by the most recent `targetFound` that no
   * `targetLost` has followed: if firing `h` after `trace` changes anything, then the
   * last marker signal is a `targetFound` at `at`, `h` is due at `at + 10000`, and the
   * fade leaves the text at opacity 0.
   */
  lemma FadeOnlyAfterLatestFound(s: Stage, trace: seq<Signal>, h: Handle)
    requires Valid(s) && s.pending == map[]
    requires Fire(Run(s, trace), h) != Run(s, trace)
    ensures LastMarker(trace).Some? && LastMarker(trace).value.TargetFound?
    ensures h in Run(s, trace).pending
    ensures Run(s, trace).pending[h] == LastMarker(trace).value.at + FadeDelayMs
    ensures Fire(Run(s, trace), h).elements[Run(s, trace).text].opacity == 0.0
  {
    PendingOnlyFromLatestFound(s, trace);
  }

  /** After a loss, no timer survives to fire: every later firing before a find is inert. */
  lemma {:induction false} NoFadeAfterLoss(s: Stage, hs: seq<Handle>)
    requires Valid(s)
    ensures var l := Lost(s);
      Run(l, seq(|hs|, i requires 0 <= i < |hs| => TimerFires(hs[i]))) == l
    decreases |hs|
  {
    var l := Lost(s);
    var fires := seq(|hs|, i requires 0 <= i < |hs| => TimerFires(hs[i]));
    if hs != [] {
      var pre := hs[..|hs| - 1];
      NoFadeAfterLoss(s, pre);
      assert fires[..|fires| - 1] == seq(|pre|, i requires 0 <= i < |pre| => TimerFires(pre[i]));
    }
  }

  // ---------------------------------------------------------------------------
  // The closure, updated in place

  class Overlay {
    var wired: bool
    var elements: seq<Element>
    var base: nat
    var text: nat
    var tris: seq<nat>
    var fadeTimer: Option<Handle>
    var pending: map<Handle, int>
    var nextHandle: Handle
    var hud: Option<bool>

    function Model(): Stage
      reads this
    {
      Stage(wired, elements, base, text, tris, fadeTimer, pending, nextHandle, hud)
    }

    /**
     * The `DOMContentLoaded` listener. `document` holds the elements that already carry
     * ids; `hasMarkerRoot` says whether `#markerRoot` exists and `hudElement` gives the
     * HUD's `active` class if the HUD exists. On a page where none of the six layers
     * exists yet, they are created in order with strictly increasing depth.
     */
    constructor (document: seq<Element>, hasMarkerRoot: bool, hudElement: Option<bool>)
      ensures Valid(Model())
      ensures wired == hasMarkerRoot && hud == hudElement
      ensures pending == map[] && fadeTimer == None && nextHandle == 1
      ensures !wired ==> elements == document
      ensures wired ==> [base, text] + tris == StackAll(document, Layers).1
      ensures wired ==> elements == Decorated(StackAll(document, Layers).0, tris, 4)
      ensures wired ==> elements[base] == StackAll(document, Layers).0[base]
      ensures wired ==> elements[text] == StackAll(document, Layers).0[text]
      ensures wired ==> forall i :: 0 <= i < 4 ==>
        elements[tris[i]] == Decorate(StackAll(document, Layers).0[tris[i]], i)
    {
      wired := hasMarkerRoot;
      elements := document;
      base, text, tris := 0, 0, [];
      fadeTimer, pending, nextHandle := None, map[], 1;
      hud := hudElement;
      new;
      if hasMarkerRoot {
        Wire();
        LaidDecorated(Model(), StackAll(document, Layers).0);
      }
    }

    /** The part of the listener after the `#markerRoot` check: the layers, then their decoration. */
    method Wire()
      modifies this`elements, this`base, this`text, this`tris
      ensures Laid(Model())
      ensures [base, text] + tris == StackAll(old(elements), Layers).1
      ensures elements == Decorated(StackAll(old(elements), Layers).0, tris, 4)
    {
      ghost var doc := elements;
      CreateLayers();
      StackedLaid(doc);
      assert Laid(Model());
      DecorateTriangles();
    }

    /** The six `layer(...)` calls, bottom to top. */
    method CreateLayers()
      modifies this`elements, this`base, this`text, this`tris
      ensures (elements, [base, text] + tris) == StackAll(old(elements), Layers)
    {
      ghost var e0 := elements;
      base := Layer(BaseId, BaseZ);
      ghost var e1 := elements;
      text := Layer(TextId, TextZ);
      ghost var e2 := elements;
      var t1 := Layer(TriangleIds[0], TriangleZ[0]);
      ghost var e3 := elements;
      var t2 := Layer(TriangleIds[1], TriangleZ[1]);
      ghost var e4 := elements;
      var t3 := Layer(TriangleIds[2], TriangleZ[2]);
      ghost var e5 := elements;
      var t4 := Layer(TriangleIds[3], TriangleZ[3]);
      tris := [t1, t2, t3, t4];
      assert [base, text] + tris == [base, text, t1, t2, t3, t4];
      SixCalls(e0, e1, e2, e3, e4, e5, elements, base, text, t1, t2, t3, t4);
    }

    /** Opacity 0.5 and the staggered pulse animation on each triangle. */
    method DecorateTriangles()
      requires Laid(Model())
      modifies this`elements
      ensures elements == Decorated(old(elements), tris, 4)
      ensures Laid(Model())
    {
      ghost var laid := elements;
      for i := 0 to 4
        invariant elements == Decorated(laid, tris, i)
      {
        var t := tris[i];
        elements := elements[t := elements[t].(opacity := TriangleOpacity, pulseDelay := Some(PulseDelaysMs[i]))];
      }
      DecoratedKeepsIds(laid, tris, 4);
    }

    /** The helper `layer(id, z)`: get the element with `id`, or append a new one at depth `z`. */
    method Layer(id: string, z: real) returns (el: nat)
      modifies this`elements
      ensures old(elements) <= elements
      ensures (elements, el) == Layered(old(elements), id, z)
    {
      var found := FindId(elements, id);
      if found.Some? {
        el := found.value;
      } else {
        el := |elements|;
        elements := elements + [NewLayer(id, z)];
      }
    }

    /** Emit `pulse-start` (`on`) or `pulse-stop` to each triangle. */
    method EmitPulses(on: bool)
      modifies this`elements
      ensures elements == Pulsed(old(elements), tris, on)
    {
      ghost var before := elements;
      for i := 0 to |tris|
        invariant elements == Pulsed(before, tris[..i], on)
      {
        assert tris[..i + 1] == tris[..i] + [tris[i]];
        if tris[i] < |elements| {
          elements := elements[tris[i] := elements[tris[i]].(pulsing := on)];
        }
      }
      assert tris[..|tris|] == tris;
    }

    /** Both `targetFound` listeners: the HUD's, then `startSequence`. */
    method TargetFound(now: int)
      requires Valid(Model())
      modifies this
      ensures Model() == Found(old(Model()), now)
    {
      if !wired {
        return;
      }
      ghost var s := Model();
      hud := Hud(hud, true);
      elements := elements[text := elements[text].(opacity := 1.0)];
      assert elements == WithText(s, 1.0);
      EmitPulses(true);
      if fadeTimer.Some? {
        pending := pending - {fadeTimer.value};
      }
      assert pending == Cleared(s);
      fadeTimer := Some(nextHandle);
      pending := pending[nextHandle := now + FadeDelayMs];
      nextHandle := nextHandle + 1;
    }

    /** Both `targetLost` listeners: the HUD's, then `stopSequence`. */
    method TargetLost()
      requires Valid(Model())
      modifies this
      ensures Model() == Lost(old(Model()))
    {
      if !wired {
        return;
      }
      hud := Hud(hud, false);
      if fadeTimer.Some? {
        pending := pending - {fadeTimer.value};
        fadeTimer := None;
      }
      EmitPulses(false);
      elements := elements[text := elements[text].(opacity := 1.0)];
    }

    /** The event loop runs timer `h`. */
    method FireTimer(h: Handle)
      requires Valid(Model())
      modifies this
      ensures Model() == Fire(old(Model()), h)
    {
      if h in pending {
        pending := pending - {h};
        elements := elements[text := elements[text].(opacity := 0.0)];
      }
    }
  }
}
