/**
 Header objects and the slices they point to, on an explicit heap: a header maps each key to a reference to its values,
 so two headers that shared a reference would see each other's writes.
 */
module HeaderHeap {
  datatype Ref = Ref(id: nat)

  datatype Name = Name(text: string)

  datatype Values = Values(list: seq<string>)

  type Fields = map<Name, Values>

  /** A slice, and the one place it was made for; the place is bookkeeping of the model. */
  datatype Slice = Slice(values: Values, header: Ref, key: Name)

  /** Every reference in use is below `next`. */
  datatype Heap = Heap(headers: map<Ref, map<Name, Ref>>, slices: map<Ref, Slice>, next: nat)

  /** No dangling reference, and every header field points to a slice of its own. */
  ghost predicate Separate(h: Heap) {
    && (forall r | r in h.headers :: r.id < h.next)
    && (forall r | r in h.slices :: r.id < h.next)
    && (forall r, k | r in h.headers && k in h.headers[r] ::
          h.headers[r][k] in h.slices && h.slices[h.headers[r][k]].header == r && h.slices[h.headers[r][k]].key == k)
  }

  /** What a header reads as. */
  ghost function View(h: Heap, r: Ref): (v: Fields)
    requires Separate(h) && r in h.headers
    ensures v.Keys == h.headers[r].Keys
  {
    map k | k in h.headers[r] :: h.slices[h.headers[r][k]].values
  }

  /** Three empty headers: those of a fresh call info. */
  function NewHeaders(h: Heap): (Heap, Ref, Ref, Ref) {
    var a, b, c := Ref(h.next), Ref(h.next + 1), Ref(h.next + 2);
    (h.(headers := h.headers[a := map[]][b := map[]][c := map[]], next := h.next + 3), a, b, c)
  }

  /** `SetValues` with a slice of its own. */
  function SetValues(h: Heap, r: Ref, key: Name, values: Values): Heap
    requires r in h.headers
  {
    Heap(h.headers[r := h.headers[r][key := Ref(h.next)]], h.slices[Ref(h.next) := Slice(values, r, key)], h.next + 1)
  }

  /** A write through the slice that the header points to. */
  function WriteSlice(h: Heap, r: Ref, key: Name, values: Values): Heap
    requires r in h.headers && key in h.headers[r]
  {
    h.(slices := h.slices[h.headers[r][key] := Slice(values, r, key)])
  }

  lemma NewHeadersSeparate(h: Heap)
    requires Separate(h)
    ensures Separate(NewHeaders(h).0)
  {
  }

  /** Fresh headers are new, different and empty; the others read as before. */
  lemma NewHeadersKeep(h: Heap)
    requires Separate(h)
    ensures var (h', a, b, c) := NewHeaders(h);
            && Separate(h') && h'.headers.Keys == h.headers.Keys + {a, b, c}
            && a !in h.headers && b !in h.headers && c !in h.headers && a != b && a != c && b != c
            && View(h', a) == View(h', b) == View(h', c) == map[]
            && forall q | q in h.headers :: View(h', q) == View(h, q)
  {
    NewHeadersSeparate(h);
    var h' := NewHeaders(h).0;
    forall q | q in h.headers ensures View(h', q) == View(h, q) {
      assert h'.headers[q] == h.headers[q];
    }
  }

  /** From `h` to `h'` only header `r` reads differently, and now reads `fields`. */
  ghost predicate OnlyChanges(h: Heap, h': Heap, r: Ref, fields: Fields)
    requires Separate(h) && r in h.headers
  {
    && Separate(h') && h'.headers.Keys == h.headers.Keys
    && View(h', r) == fields
    && forall q | q in h.headers && q != r :: View(h', q) == View(h, q)
  }

  lemma SetValuesSeparate(h: Heap, r: Ref, key: Name, values: Values)
    requires Separate(h) && r in h.headers
    ensures Separate(SetValues(h, r, key, values))
  {
  }

  lemma SetValuesView(h: Heap, r: Ref, key: Name, values: Values, q: Ref)
    requires Separate(h) && r in h.headers && q in h.headers && Separate(SetValues(h, r, key, values))
    ensures View(SetValues(h, r, key, values), q) == if q == r then View(h, r)[key := values] else View(h, q)
  {
    OldSlices(h, q);
    hide Separate;
  }

  lemma OldSlices(h: Heap, q: Ref)
    requires Separate(h) && q in h.headers
    ensures forall k | k in h.headers[q] :: h.headers[q][k] in h.slices && h.headers[q][k] != Ref(h.next)
  {
  }

  lemma SetValuesKeeps(h: Heap, r: Ref, key: Name, values: Values)
    requires Separate(h) && r in h.headers
    ensures OnlyChanges(h, SetValues(h, r, key, values), r, View(h, r)[key := values])
  {
    hide Separate, View;
    SetValuesSeparate(h, r, key, values);
    forall q | q in h.headers
      ensures View(SetValues(h, r, key, values), q) == if q == r then View(h, r)[key := values] else View(h, q)
    {
      SetValuesView(h, r, key, values, q);
    }
  }

  lemma WriteSliceSeparate(h: Heap, r: Ref, key: Name, values: Values)
    requires Separate(h) && r in h.headers && key in h.headers[r]
    ensures Separate(WriteSlice(h, r, key, values))
  {
    var h' := WriteSlice(h, r, key, values);
    assert h'.slices.Keys == h.slices.Keys;
  }

  lemma WriteSliceView(h: Heap, r: Ref, key: Name, values: Values, q: Ref)
    requires Separate(h) && r in h.headers && key in h.headers[r] && q in h.headers
    requires Separate(WriteSlice(h, r, key, values))
    ensures View(WriteSlice(h, r, key, values), q) == if q == r then View(h, r)[key := values] else View(h, q)
  {
    var h' := WriteSlice(h, r, key, values);
    forall k | k in h.headers[q] && !(q == r && k == key)
      ensures h'.slices[h.headers[q][k]] == h.slices[h.headers[q][k]]
    {
      assert h.headers[q][k] != h.headers[r][key];
    }
  }

  lemma WriteSliceKeeps(h: Heap, r: Ref, key: Name, values: Values)
    requires Separate(h) && r in h.headers && key in h.headers[r]
    ensures OnlyChanges(h, WriteSlice(h, r, key, values), r, View(h, r)[key := values])
  {
    hide Separate, View;
    WriteSliceSeparate(h, r, key, values);
    forall q | q in h.headers
      ensures View(WriteSlice(h, r, key, values), q) == if q == r then View(h, r)[key := values] else View(h, q)
    {
      WriteSliceView(h, r, key, values, q);
    }
  }

  ghost function SomeKey(keys: set<Name>): (k: Name)
    requires keys != {}
    ensures k in keys
  {
    var k :| k in keys; k
  }

  /** `copyHeader` for the given keys, in some order: one clone per key. */
  ghost function CopyKeys(h: Heap, dst: Ref, src: Ref, keys: set<Name>): Heap
    requires Separate(h) && dst in h.headers && src in h.headers && dst != src && keys <= h.headers[src].Keys
    decreases |keys|
  {
    if keys == {} then h
    else
      var k := SomeKey(keys);
      SetValuesKeeps(h, dst, k, View(h, src)[k]);
      CopyKeys(SetValues(h, dst, k, View(h, src)[k]), dst, src, keys - {k})
  }

  /** The part of some fields under the given keys. */
  ghost function Part(fields: Fields, keys: set<Name>): Fields {
    map k | k in fields && k in keys :: fields[k]
  }

  lemma PartStep(base: Fields, src: Fields, k: Name, keys: set<Name>)
    requires k in src && k in keys
    ensures base[k := src[k]] + Part(src, keys - {k}) == base + Part(src, keys)
  {
  }

  lemma {:induction false} CopyKeysKeeps(h: Heap, dst: Ref, src: Ref, keys: set<Name>)
    requires Separate(h) && dst in h.headers && src in h.headers && dst != src && keys <= h.headers[src].Keys
    ensures OnlyChanges(h, CopyKeys(h, dst, src, keys), dst, View(h, dst) + Part(View(h, src), keys))
    decreases |keys|
  {
    if keys == {} {
      hide Separate, View;
      assert Part(View(h, src), keys) == map[];
    } else {
      hide Separate, View, CopyKeys, Part, OnlyChanges;
      var h', k := CopyStep(h, dst, src, keys);
      CopyKeysKeeps(h', dst, src, keys - {k});
      PartStep(View(h, dst), View(h, src), k, keys);
      var fields := View(h', dst) + Part(View(h', src), keys - {k});
    }
  }

  lemma CopyStep(h: Heap, dst: Ref, src: Ref, keys: set<Name>) returns (h': Heap, k: Name)
    requires Separate(h) && dst in h.headers && src in h.headers && dst != src && keys <= h.headers[src].Keys
    requires keys != {}
    ensures k in keys && k in View(h, src) && |keys - {k}| < |keys|
    ensures OnlyChanges(h, h', dst, View(h, dst)[k := View(h, src)[k]])
    ensures Separate(h') && dst in h'.headers && src in h'.headers && h'.headers[src] == h.headers[src]
    ensures View(h', dst) == View(h, dst)[k := View(h, src)[k]] && View(h', src) == View(h, src)
    ensures CopyKeys(h, dst, src, keys) == CopyKeys(h', dst, src, keys - {k})
  {
    hide Separate, View;
    k := SomeKey(keys);
    h' := SetValues(h, dst, k, View(h, src)[k]);
    SetValuesKeeps(h, dst, k, View(h, src)[k]);
  }

  ghost function CopyHeader(h: Heap, dst: Ref, src: Ref): Heap
    requires Separate(h) && dst in h.headers && src in h.headers && dst != src
  {
    CopyKeys(h, dst, src, h.headers[src].Keys)
  }

  /** Copying adds the source's fields to the destination and changes no other header; nothing becomes shared. */
  lemma CopyHeaderKeeps(h: Heap, dst: Ref, src: Ref)
    requires Separate(h) && dst in h.headers && src in h.headers && dst != src
    ensures OnlyChanges(h, CopyHeader(h, dst, src), dst, View(h, dst) + View(h, src))
  {
    CopyKeysKeeps(h, dst, src, h.headers[src].Keys);
    assert Part(View(h, src), h.headers[src].Keys) == View(h, src);
  }
}
