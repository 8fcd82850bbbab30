/** Registering dense tensors: the layers the pager starts from. */
module StreamRegistry {
  import opened PagerModel
  import opened Prefixes

  type Layers = map<int, seq<StreamTensor>>

  ghost predicate Named(layers: Layers, layer: int, name: string) {
    layer in layers && exists i :: 0 <= i < |layers[layer]| && layers[layer][i].name == name
  }

  /** Layer k with one more tensor. */
  function Joined(layers: Layers, k: int, t: StreamTensor): (r: Layers)
    ensures r.Keys == layers.Keys + {k}
  {
    layers[k := (if k in layers then layers[k] else []) + [t]]
  }

  /** Layers are named by their index below n, none is empty, and no layer has two
      tensors of one name. */
  ghost predicate WellNamed(layers: Layers, n: nat) {
    && (forall k :: k in layers ==> 0 <= k < n && layers[k] != [])
    && (forall k, i, j :: k in layers && 0 <= i < j < |layers[k]| ==> layers[k][i].name != layers[k][j].name)
    && (n > 0 ==> n - 1 in layers)
  }

  /** The running total stays the bytes of all layers. */
  lemma {:induction false} JoinedBytes(layers: Layers, k: nat, t: StreamTensor, m: nat)
    ensures PrefixBytes(Joined(layers, k, t), m) == PrefixBytes(layers, m) + (if k < m then t.byteSize else 0)
  {
    if m == 0 {
    } else {
      JoinedBytes(layers, k, t, m - 1);
      if k == m - 1 {
        var ts := if k in layers then layers[k] else [];
        assert (ts + [t])[..|ts|] == ts;
        assert Joined(layers, k, t)[k] == ts + [t];
        assert LayerBytes(Joined(layers, k, t), k) == BytesOf(ts) + t.byteSize;
        assert LayerBytes(layers, k) == BytesOf(ts);
      }
    }
  }

  lemma {:induction false} NothingBeyond(layers: Layers, n: nat, m: nat)
    requires n <= m && forall k :: k in layers ==> k < n
    ensures PrefixBytes(layers, m) == PrefixBytes(layers, n)
    decreases m
  {
    if m == n {
    } else {
      NothingBeyond(layers, n, m - 1);
    }
  }

  class Registry {
    var layers: Layers         // stream_layers_
    var nLayers: nat           // stream_n_layers_, highest registered layer + 1
    var totalBytes: nat        // stream_total_bytes_

    ghost predicate Valid()
      reads this
    {
      WellNamed(layers, nLayers) && totalBytes == PrefixBytes(layers, nLayers)
    }

    constructor ()
      ensures Valid() && layers == map[]
    {
      layers, nLayers, totalBytes := map[], 0, 0;
    }

    method HasName(layer: int, name: string) returns (present: bool)
      ensures present == Named(layers, layer, name)
    {
      if layer !in layers {
        return false;
      }
      var ts := layers[layer];
      for i := 0 to |ts|
        invariant forall j :: 0 <= j < i ==> ts[j].name != name
      {
        if ts[i].name == name {
          return true;
        }
      }
      present := false;
    }

    /** register_stream_tensor; `owned` says the expert path already has this name. */
    method Register(name: string, layer: int, byteSize: nat, mapped: bool, owned: bool) returns (accepted: bool)
      requires Valid()
      modifies this
      ensures Valid()
      ensures accepted <==> byteSize > 0 && layer >= 0 && !owned && !Named(old(layers), layer, name)
      ensures layers == if accepted then Joined(old(layers), layer, StreamTensor(name, byteSize, false, mapped)) else old(layers)
      ensures nLayers == if accepted && layer + 1 > old(nLayers) then layer + 1 else old(nLayers)
      ensures totalBytes == old(totalBytes) + if accepted then byteSize else 0
    {
      if byteSize == 0 || layer < 0 {
        return false;
      }
      if owned {
        return false;
      }
      var present := HasName(layer, name);
      if present {
        return false;
      }
      var t := StreamTensor(name, byteSize, false, mapped);
      var n := if layer + 1 > nLayers then layer + 1 else nLayers;
      NothingBeyond(layers, nLayers, n);
      JoinedBytes(layers, layer, t, n);
      layers, totalBytes, nLayers := Joined(layers, layer, t), totalBytes + byteSize, n;
      accepted := true;
    }
  }
}
