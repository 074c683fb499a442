/** Matching the attention entries of a forward to the cache layers that hold keys and values. On a
    hybrid model only some layers do. */
module Alignment {
  import opened Options
  import opened Seqs

  /** The layers that hold keys and values, in order. */
  function KvLayers(kv: seq<bool>): (ls: seq<nat>)
    ensures forall i :: 0 <= i < |ls| ==> ls[i] < |kv| && kv[ls[i]]
    ensures forall i, j :: 0 <= i < j < |ls| ==> ls[i] < ls[j]
  {
    if kv == [] then []
    else KvLayers(kv[..|kv| - 1]) + if kv[|kv| - 1] then [|kv| - 1] else []
  }

  lemma {:induction false} KvLayersComplete(kv: seq<bool>, l: nat)
    requires l < |kv| && kv[l]
    ensures l in KvLayers(kv)
  {
    if l < |kv| - 1 { KvLayersComplete(kv[..|kv| - 1], l); }
  }

  /** The attention entries that are present, in order. */
  function Present<T>(atts: seq<Option<T>>): (ps: seq<T>) {
    if atts == [] then []
    else Present(atts[..|atts| - 1]) + if atts[|atts| - 1].Some? then [atts[|atts| - 1].value] else []
  }

  /** Where they are: `at` lists the places of present entries, all of them, in order. */
  lemma {:induction false} PresentAre<T>(atts: seq<Option<T>>) returns (at: seq<nat>)
    ensures |at| == |Present(atts)| && forall i, j :: 0 <= i < j < |at| ==> at[i] < at[j]
    ensures forall i :: 0 <= i < |at| ==> at[i] < |atts| && atts[at[i]] == Some(Present(atts)[i])
    ensures forall l: nat :: l in at <==> l < |atts| && atts[l].Some?
  {
    at := [];
    if atts != [] {
      var n := |atts| - 1;
      var front, last := atts[..n], atts[n];
      var before := PresentAre(front);
      at := before + if last.Some? then [n] else [];
      assert Present(atts) == Present(front) + if last.Some? then [last.value] else [];
      assert forall l :: 0 <= l < n ==> front[l] == atts[l];
      PlacesGrow(before, n, at);
    }
  }

  predicate OnePerLayer<T>(kv: seq<bool>, atts: seq<Option<T>>) {
    |atts| == |kv| && forall l :: 0 <= l < |kv| ==> (atts[l].Some? <==> kv[l])
  }

  /** The i-th key of the map is the i-th of `ls`, with the i-th of `ps`. */
  function Zip<T>(ls: seq<nat>, ps: seq<T>): (m: map<nat, T>)
    requires |ls| == |ps|
    requires forall i, j :: 0 <= i < j < |ls| ==> ls[i] < ls[j]
    ensures forall l :: l in m <==> l in ls
    ensures forall i :: 0 <= i < |ls| ==> ls[i] in m && m[ls[i]] == ps[i]
  {
    map l | l in ls :: ps[IndexOf(ls, l)]
  }

  /** One entry per layer is indexed by layer; otherwise entries and layers are matched in order,
      and a differing count is refused. */
  function Align<T>(kv: seq<bool>, atts: seq<Option<T>>): (r: Option<map<nat, T>>) {
    if OnePerLayer(kv, atts) then Some(map l: nat | l < |kv| && kv[l] :: atts[l].value)
    else if |Present(atts)| == |KvLayers(kv)| then Some(Zip(KvLayers(kv), Present(atts)))
    else None
  }

  lemma {:induction false} OnePerLayerInOrder<T>(kv: seq<bool>, atts: seq<Option<T>>)
    requires OnePerLayer(kv, atts)
    ensures |Present(atts)| == |KvLayers(kv)|
    ensures forall i :: 0 <= i < |KvLayers(kv)| ==> atts[KvLayers(kv)[i]] == Some(Present(atts)[i])
  {
    if kv != [] {
      OnePerLayerInOrder(kv[..|kv| - 1], atts[..|atts| - 1]);
    }
  }

  /** Either way of matching, the i-th layer holding keys and values gets the i-th entry that is
      present; every such layer gets one, no other layer does; and matching is refused exactly when
      the counts differ. */
  lemma AlignInOrder<T>(kv: seq<bool>, atts: seq<Option<T>>)
    ensures Align(kv, atts).Some? <==> |Present(atts)| == |KvLayers(kv)|
    ensures Align(kv, atts).Some? ==>
              var m := Align(kv, atts).value;
              && (forall l: nat :: l in m <==> l < |kv| && kv[l])
              && forall i :: 0 <= i < |KvLayers(kv)| ==> KvLayers(kv)[i] in m && m[KvLayers(kv)[i]] == Present(atts)[i]
  {
    if OnePerLayer(kv, atts) {
      OnePerLayerInOrder(kv, atts);
    } else if |Present(atts)| == |KvLayers(kv)| {
      forall l: nat ensures l in Align(kv, atts).value <==> l < |kv| && kv[l] {
        if l < |kv| && kv[l] { KvLayersComplete(kv, l); }
      }
    }
  }
}
