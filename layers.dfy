/** The layer registry of archive_10-2020/collabVis/src/layers.js: a `LayerManager` that builds an
    institutions (scatterplot) layer and a collaborations (arc) layer, remembers the latest of
    each, and keeps every layer it built in an ordered list.  The map library's layer objects are
    modelled as plain descriptors holding the properties the code gives them. */
module Layers {

  datatype Option<T> = None | Some(value: T)

  /** An RGB or RGBA colour, as the array of channel values the code writes. */
  type Color = seq<int>

  const ArcColor: Color := [247, 38, 113, 40]
  const DotColor: Color := [0, 255, 255]
  /** The fill colour of an institutions layer built while institutions are shown: white, fully
      transparent, so that together with the radius transition the dots grow as they fade. */
  const ShownFillColor: Color := [255, 255, 255, 0]
  /** The module flag handed to every collaborations layer; nothing reassigns it. */
  const EnableBrushing: bool := false

  const InstitutionsId: string := "institutions"
  const CollaborationsId: string := "collaborations"
  const ShownRadius: int := 50000
  const HiddenRadius: int := 0
  const TransitionMs: nat := 3000
  const BrushingRadius: int := 40000
  const ArcWidth: int := 2
  const ArcHeight: real := 0.5

  /** The easing curve of a transition; the library's default, or `d3.easeBackInOut`. */
  datatype Easing = DefaultEasing | EaseBackInOut
  datatype Transition = Transition(durationMs: nat, easing: Easing)
  datatype Extension = BrushingExtension
  /** A position accessor `d => d.<name>`, kept as the name of the property it selects. */
  datatype Accessor = Field(name: string)

  /** The descriptor of a layer as the code configures it.  The colour accessors of an arc layer
      (`d => arcColor`) return one colour for every datum, so the colour itself is kept. */
  datatype Layer<Row> =
    | ScatterplotLayer(id: string, data: seq<Row>, getPosition: Accessor, filled: bool,
                       fillColor: Color, radius: int,
                       fillColorTransition: Transition, radiusTransition: Transition,
                       radiusTrigger: seq<bool>)
    | ArcLayer(id: string, data: seq<Row>, width: int, height: real, pickable: bool,
               brushingRadius: int, brushingEnabled: bool,
               getSourcePosition: Accessor, getTargetPosition: Accessor,
               sourceColor: Color, targetColor: Color, extensions: seq<Extension>)

  /** The institutions layer `mkInstLayer` builds from `data` while the flag `showInst` has the
      given value. */
  function InstLayer<Row>(data: seq<Row>, showInst: bool): Layer<Row>
  {
    ScatterplotLayer(InstitutionsId, data, Field("coordinates"), true,
                     if showInst then ShownFillColor else DotColor,
                     if showInst then ShownRadius else HiddenRadius,
                     Transition(TransitionMs, DefaultEasing), Transition(TransitionMs, EaseBackInOut),
                     [showInst])
  }

  /** The collaborations layer `mkCollabLayer` builds from `data`. */
  function CollabLayer<Row>(data: seq<Row>): Layer<Row>
  {
    ArcLayer(CollaborationsId, data, ArcWidth, ArcHeight, true, BrushingRadius, EnableBrushing,
             Field("instA_coords"), Field("instB_coords"), ArcColor, ArcColor, [BrushingExtension])
  }

  /** The state of a `LayerManager`: `null` slots are `None`. */
  datatype Registry<Row> = Registry(showInst: bool, instLayer: Option<Layer<Row>>,
                                    collabLayer: Option<Layer<Row>>, layers: seq<Layer<Row>>)

  /** The calls that change a `LayerManager`; `getLayers` changes nothing and is not among them. */
  datatype Call<Row> = ShowInstLayer | MkInstLayer(data: seq<Row>) | MkCollabLayer(data: seq<Row>)

  /** The state a new `LayerManager` starts in. */
  function Fresh<Row>(): Registry<Row>
  {
    Registry(false, None, None, [])
  }

  /** The last layer of `layers` whose id is `id`, if any. */
  function LastWithId<Row>(layers: seq<Layer<Row>>, id: string): Option<Layer<Row>>
  {
    if layers == [] then None
    else if layers[|layers| - 1].id == id then Some(layers[|layers| - 1])
    else LastWithId(layers[..|layers| - 1], id)
  }

  /** Was `l` built by one of the two builders? */
  ghost predicate Built<Row>(l: Layer<Row>)
  {
    l == InstLayer(l.data, false) || l == InstLayer(l.data, true) || l == CollabLayer(l.data)
  }

  /** The invariant of the registry: it holds only layers its builders made, each slot holds the
      latest layer of its kind, and no layer was built as shown while institutions are hidden. */
  ghost predicate Consistent<Row>(r: Registry<Row>)
  {
    (forall i :: 0 <= i < |r.layers| ==> Built(r.layers[i])) &&
    r.instLayer == LastWithId(r.layers, InstitutionsId) &&
    r.collabLayer == LastWithId(r.layers, CollaborationsId) &&
    (!r.showInst ==> forall i :: 0 <= i < |r.layers| ==> r.layers[i] != InstLayer(r.layers[i].data, true))
  }

  /** The effect of one call on the registry. */
  function Step<Row>(r: Registry<Row>, c: Call<Row>): (r': Registry<Row>)
    ensures Consistent(r) ==> Consistent(r')
  {
    match c
    case ShowInstLayer => r.(showInst := true)
    case MkInstLayer(data) =>
      var l := InstLayer(data, r.showInst);
      assert (r.layers + [l])[..|r.layers|] == r.layers;
      r.(instLayer := Some(l), layers := r.layers + [l])
    case MkCollabLayer(data) =>
      var l := CollabLayer(data);
      assert (r.layers + [l])[..|r.layers|] == r.layers;
      r.(collabLayer := Some(l), layers := r.layers + [l])
  }

  /** The effect of a sequence of calls, made in order. */
  function Run<Row>(r: Registry<Row>, calls: seq<Call<Row>>): Registry<Row>
  {
    if calls == [] then r else Step(Run(r, calls[..|calls| - 1]), calls[|calls| - 1])
  }

  /** The number of layer-building calls among `calls`. */
  function BuildCount<Row>(calls: seq<Call<Row>>): nat
  {
    if calls == [] then 0
    else BuildCount(calls[..|calls| - 1]) + (if calls[|calls| - 1].ShowInstLayer? then 0 else 1)
  }

  /** The layer a building call makes while `showInst` has the given value. */
  function LayerOf<Row>(c: Call<Row>, showInst: bool): Layer<Row>
    requires !c.ShowInstLayer?
  {
    if c.MkInstLayer? then InstLayer(c.data, showInst) else CollabLayer(c.data)
  }

  /** Making the calls of `a` and then those of `b` is making the calls of `a + b`. */
  lemma {:induction false} RunAppend<Row>(r: Registry<Row>, a: seq<Call<Row>>, b: seq<Call<Row>>)
    ensures Run(r, a + b) == Run(Run(r, a), b)
    decreases |b|
  {
    if b == [] {
      assert a + b == a;
    } else {
      var b' := b[..|b| - 1];
      assert (a + b)[..|a + b| - 1] == a + b';
      RunAppend(r, a, b');
    }
  }

  /** Calls never remove, replace or reorder layers: the layers there were stay in front, and one
      layer is appended per building call, with no de-duplication by id. */
  lemma {:induction false} RunKeepsLayers<Row>(r: Registry<Row>, calls: seq<Call<Row>>)
    ensures |Run(r, calls).layers| == |r.layers| + BuildCount(calls)
    ensures Run(r, calls).layers[..|r.layers|] == r.layers
    decreases |calls|
  {
    if calls != [] {
      RunKeepsLayers(r, calls[..|calls| - 1]);
    }
  }

  /** Institutions are shown after the calls exactly when they were before or some call was
      `showInstLayer`: the flag is never cleared. */
  lemma {:induction false} RunShowInst<Row>(r: Registry<Row>, calls: seq<Call<Row>>)
    ensures Run(r, calls).showInst <==> r.showInst || ShowInstLayer in calls
    decreases |calls|
  {
    if calls != [] {
      var init := calls[..|calls| - 1];
      RunShowInst(r, init);
      assert calls == init + [calls[|calls| - 1]];
      assert ShowInstLayer in calls <==> ShowInstLayer in init || calls[|calls| - 1] == ShowInstLayer;
    }
  }

  /** The layer made by the last of the calls, when it is a building call, is the last layer, and
      was built with the value `showInst` had after the calls before it. */
  lemma RunLastBuilt<Row>(r: Registry<Row>, calls: seq<Call<Row>>)
    requires calls != [] && !calls[|calls| - 1].ShowInstLayer?
    ensures |r.layers| + BuildCount(calls[..|calls| - 1]) < |Run(r, calls).layers|
    ensures Run(r, calls).layers[|r.layers| + BuildCount(calls[..|calls| - 1])]
         == LayerOf(calls[|calls| - 1], Run(r, calls[..|calls| - 1]).showInst)
  {
    RunKeepsLayers(r, calls[..|calls| - 1]);
  }

  /** The layers after the first `n` calls stay, in place, at the front of the layers after all
      of them. */
  lemma RunPrefixLayers<Row>(r: Registry<Row>, calls: seq<Call<Row>>, n: nat)
    requires n <= |calls|
    ensures |Run(r, calls[..n]).layers| <= |Run(r, calls).layers|
    ensures Run(r, calls).layers[..|Run(r, calls[..n]).layers|] == Run(r, calls[..n]).layers
  {
    var rest := calls[n..];
    assert calls == calls[..n] + rest;
    RunAppend(r, calls[..n], rest);
    RunKeepsLayers(Run(r, calls[..n]), rest);
  }

  /** Right after the building call at position `j`, its layer is the last one, at the position
      given by the earlier building calls. */
  lemma RunUptoBuilt<Row>(r: Registry<Row>, calls: seq<Call<Row>>, j: nat)
    requires j < |calls| && !calls[j].ShowInstLayer?
    ensures |r.layers| + BuildCount(calls[..j]) < |Run(r, calls[..j + 1]).layers|
    ensures Run(r, calls[..j + 1]).layers[|r.layers| + BuildCount(calls[..j])]
         == LayerOf(calls[j], r.showInst || ShowInstLayer in calls[..j])
  {
    var upto := calls[..j + 1];
    assert upto[..|upto| - 1] == calls[..j] && upto[|upto| - 1] == calls[j];
    RunShowInst(r, calls[..j]);
    RunLastBuilt(r, upto);
  }

  /** The layer built by the building call at position `j` sits after the layers of the earlier
      building calls, and keeps for good the radius, colour and trigger given by whether
      institutions were shown when it was built. */
  lemma RunBuiltLayer<Row>(r: Registry<Row>, calls: seq<Call<Row>>, j: nat)
    requires j < |calls| && !calls[j].ShowInstLayer?
    ensures |r.layers| + BuildCount(calls[..j]) < |Run(r, calls).layers|
    ensures Run(r, calls).layers[|r.layers| + BuildCount(calls[..j])]
         == LayerOf(calls[j], r.showInst || ShowInstLayer in calls[..j])
  {
    var before := Run(r, calls[..j + 1]).layers;
    var after := Run(r, calls).layers;
    var k := |r.layers| + BuildCount(calls[..j]);
    RunUptoBuilt(r, calls, j);
    RunPrefixLayers(r, calls, j + 1);
    assert after[..|before|][k] == after[k];
  }

  /** A second `showInstLayer` right after a first changes nothing, whatever comes before or
      after. */
  lemma ShowInstIdempotent<Row>(r: Registry<Row>, before: seq<Call<Row>>, after: seq<Call<Row>>)
    ensures Run(r, before + [ShowInstLayer, ShowInstLayer] + after)
         == Run(r, before + [ShowInstLayer] + after)
  {
    var once := before + [ShowInstLayer];
    var twice := once + [ShowInstLayer];
    assert Run(r, twice) == Run(r, once) by {
      assert twice[..|twice| - 1] == once && twice[|twice| - 1] == ShowInstLayer;
      assert once[..|once| - 1] == before && once[|once| - 1] == ShowInstLayer;
    }
    assert before + [ShowInstLayer, ShowInstLayer] + after == twice + after;
    RunAppend(r, twice, after);
    RunAppend(r, once, after);
  }

  /** Every state reached from a new manager satisfies the registry invariant. */
  lemma {:induction false} RunConsistent<Row>(calls: seq<Call<Row>>)
    ensures Consistent(Run(Fresh(), calls))
    decreases |calls|
  {
    if calls != [] {
      RunConsistent(calls[..|calls| - 1]);
    }
  }

  class LayerManager<Row> {
    var showInst: bool
    var instLayer: Option<Layer<Row>>
    var collabLayer: Option<Layer<Row>>
    var layers: seq<Layer<Row>>

    function State(): Registry<Row>
      reads this
    {
      Registry(showInst, instLayer, collabLayer, layers)
    }

    ghost predicate Valid()
      reads this
    {
      Consistent(State())
    }

    constructor ()
      ensures !showInst && instLayer == None && collabLayer == None && layers == []
      ensures State() == Fresh() && Valid()
    {
      showInst := false;
      instLayer := None;
      collabLayer := None;
      layers := [];
    }

    method ShowInstLayer()
      modifies this`showInst
      ensures showInst
      ensures State() == Step(old(State()), Call.ShowInstLayer)
      ensures old(Valid()) ==> Valid()
    {
      showInst := true;
    }

    method MkInstLayer(data: seq<Row>)
      modifies this`instLayer, this`layers
      ensures instLayer == Some(InstLayer(data, showInst))
      ensures layers == old(layers) + [InstLayer(data, showInst)]
      ensures State() == Step(old(State()), Call.MkInstLayer(data))
      ensures old(Valid()) ==> Valid()
    {
      instLayer := Some(InstLayer(data, showInst));
      layers := layers + [instLayer.value];
    }

    method MkCollabLayer(data: seq<Row>)
      modifies this`collabLayer, this`layers
      ensures collabLayer == Some(CollabLayer(data))
      ensures layers == old(layers) + [CollabLayer(data)]
      ensures State() == Step(old(State()), Call.MkCollabLayer(data))
      ensures old(Valid()) ==> Valid()
    {
      collabLayer := Some(CollabLayer(data));
      layers := layers + [collabLayer.value];
    }

    method GetLayers() returns (ls: seq<Layer<Row>>)
      ensures ls == layers
    {
      ls := layers;
    }
  }
}
