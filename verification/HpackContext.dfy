/** The HPACK state of one connection as the source keeps it, updated in place:
    the dynamic table and the decoding loop over a block. */
module HpackContext {
  import opened Bytes
  import opened HpackTable
  import opened HpackBlock
  import Int = HpackInteger
  import Huffman = HpackHuffman

  // ---------------------------------------------------------------------
  // Decoder state, updated in place
  // ---------------------------------------------------------------------

  class Hpack {
    const codec: Codec
    var dynName: seq<Text>
    var dynValue: seq<Text>
    var dynUsed: int
    var dynMax: nat

    ghost predicate Valid()
      reads this
    {
      Sized(codec) && |dynName| == |dynValue|
    }

    ghost function Table(): Dyn
      requires Valid()
      reads this
    {
      Dyn(Zip(dynName, dynValue), dynUsed, dynMax)
    }

    /** `hpack_init`. */
    constructor (codec: Codec)
      requires Sized(codec)
      ensures Valid() && this.codec == codec && Table() == Dyn([], 0, 4096)
    {
      this.codec := codec;
      dynName, dynValue, dynUsed, dynMax := [], [], 0, 4096;
    }

    /** The eviction loop shared by insertion and size updates. */
    method EvictFor(need: nat)
      requires Valid()
      modifies this`dynName, this`dynValue, this`dynUsed
      ensures Valid() && Table() == Evict(old(Table()), need)
    {
      while |dynName| > 0 && dynUsed + need > dynMax
        invariant Valid() && Evict(Table(), need) == Evict(old(Table()), need)
        decreases |dynName|
      {
        var last := |dynName| - 1;
        assert Zip(dynName, dynValue)[..last] == Zip(dynName[..last], dynValue[..last]);
        dynUsed := dynUsed - (|dynName[last]| + |dynValue[last]| + 32);
        dynName, dynValue := dynName[..last], dynValue[..last];
      }
    }

    /** `hp_dyn_insert`: the eviction comes before the name is copied, so a view
        of an evicted entry is copied from freed memory. */
    method DynInsert(view: View, name: Text, value: Text)
      requires Valid()
      modifies this`dynName, this`dynValue, this`dynUsed
      ensures Valid() && Table() == Add(codec, old(Table()), view, Field(name, value))
    {
      var entry := |name| + |value| + 32;
      if dynMax != 0 && entry > dynMax {
        return;
      }
      EvictFor(entry);
      assert EntrySize(Field(name, value)) == entry && Table() == Evict(old(Table()), entry);
      var copied := name;
      if view.Entry? && view.position >= |dynName| && |name| > 0 {
        copied := codec.stale(name);
      }
      PushFront(copied, value, entry);
    }

    method PushFront(name: Text, value: Text, entry: nat)
      requires Valid()
      modifies this`dynName, this`dynValue, this`dynUsed
      ensures Valid()
      ensures var t := old(Table());
              Table() == Dyn([Field(name, value)] + t.entries, t.used + entry, t.max)
    {
      assert Zip([name] + dynName, [value] + dynValue) == [Field(name, value)] + Zip(dynName, dynValue);
      dynName, dynValue := [name] + dynName, [value] + dynValue;
      dynUsed := dynUsed + entry;
    }

    /** `hp_shrink_to`. */
    method ShrinkTo(size: nat)
      requires Valid()
      modifies this
      ensures Valid() && Table() == Shrink(old(Table()), size)
    {
      dynMax := size;
      EvictFor(0);
    }

    /** `hp_lookup`. */
    method Find(index: nat) returns (r: Option<Field>)
      requires Valid()
      ensures r == Lookup(codec, Table().entries, index)
    {
      if 1 <= index <= 61 {
        return Some(codec.statics[index - 1]);
      }
      if index >= 62 && index - 62 < |dynName| {
        return Some(Field(dynName[index - 62], dynValue[index - 62]));
      }
      r := None;
    }

    /** `hp_string`. */
    method TakeString(data: Text, start: nat) returns (ok: bool, text: Text, p: nat)
      requires Valid() && start <= |data|
      ensures start <= p <= |data| && (ok ==> start < p)
      ensures Agrees(ReadString(codec, data[start..]), ok, text, data[p..])
    {
      ok, text, p := false, [], start;
      if start >= |data| { return; }
      var got, len, q := Int.Read(data, start, 128);
      if !got || len > MAX_STRING || |data| - q < len { return; }
      assert data[q..][..len] == data[q..q + len] && data[q..][len..] == data[q + len..];
      var raw := data[q..q + len];
      if data[start] >= 128 {
        var inflated := Huffman.Inflate(codec.codes, raw);
        if inflated.None? { return; }
        text := inflated.value;
      } else {
        text := raw;
      }
      ok, p := true, q + len;
    }

    /** The name half of a literal, and where it points to. */
    method TakeName(data: Text, start: nat, full: nat) returns (ok: bool, name: Text, view: View, p: nat)
      requires Valid() && start <= |data| && Int.IsPrefix(full)
      ensures start <= p <= |data| && (ok ==> start < p)
      ensures Agrees(ReadName(codec, Table().entries, data[start..], full), ok, name, data[p..])
      ensures ok && full == 64 ==> view == ViewAt(data[start..])
    {
      view := Owned;
      var got, index, q := Int.Read(data, start, full);
      if !got {
        return false, [], view, start;
      }
      if index == 0 {
        ok, name, p := TakeString(data, q);
      } else {
        var f := Find(index);
        if f.None? {
          return false, [], view, start;
        }
        if index >= 62 {
          view := Entry(index - 62);
        }
        ok, name, p := true, f.value.name, q;
      }
    }

    /** Both halves of a literal. */
    method TakeLiteral(data: Text, start: nat, full: nat) returns (ok: bool, f: Field, view: View, p: nat)
      requires Valid() && start <= |data| && Int.IsPrefix(full)
      ensures start <= p <= |data| && (ok ==> start < p)
      ensures Agrees(ReadLiteral(codec, Table().entries, data[start..], full), ok, f, data[p..])
      ensures ok && full == 64 ==> view == ViewAt(data[start..])
    {
      ok, f, view, p := false, Field([], []), Owned, start;
      var named, name, from, q := TakeName(data, start, full);
      if !named { return; }
      var valued, value, r := TakeString(data, q);
      if !valued { return; }
      ok, f, view, p := true, Field(name, value), from, r;
    }

    /** An indexed field. */
    method TakeIndexed(data: Text, start: nat) returns (ok: bool, f: Field, p: nat)
      requires Valid() && start <= |data|
      ensures start <= p <= |data| && (ok ==> start < p)
      ensures Agrees(ReadIndexed(codec, Table().entries, data[start..]), ok, f, data[p..])
    {
      ok, f, p := false, Field([], []), start;
      var got, index, q := Int.Read(data, start, 128);
      if !got || index == 0 { return; }
      var e := Find(index);
      if e.None? { return; }
      ok, f, p := true, e.value, q;
    }

    /** The outcome of the block when `fields` are out and `s` is left. */
    ghost function Resume(fields: seq<Field>, s: Text, any: bool): Outcome
      requires Valid()
      reads this
    {
      Joined(fields, DecodeFrom(codec, Table(), s, any))
    }

    /** A field representation, of any of the three kinds. */
    method TakeField(data: Text, start: nat) returns (ok: bool, f: Field, view: View, p: nat)
      requires Valid() && start < |data|
      ensures start <= p <= |data| && (ok ==> start < p)
      ensures Agrees(ReadField(codec, Table().entries, data[start..]), ok, f, data[p..])
      ensures ok && KindOf(data[start]) == Adding ==> view == ViewAt(data[start..])
    {
      view := Owned;
      match KindOf(data[start])
      case Indexing => ok, f, p := TakeIndexed(data, start);
      case Adding => ok, f, view, p := TakeLiteral(data, start, 64);
      case _ => ok, f, view, p := TakeLiteral(data, start, 16);
    }

    /** The size-update branch of the loop. */
    method TakeResize(data: Text, start: nat, any: bool, ghost fields: seq<Field>) returns (ok: bool, p: nat)
      requires Valid() && start < |data| && KindOf(data[start]) == Resizing
      modifies this
      ensures Valid() && (ok ==> start < p <= |data|)
      ensures old(Resume(fields, data[start..], any))
              == if ok then Resume(fields, data[p..], false) else Fail
      ensures ok ==> !any
    {
      ok, p := false, start;
      var got, size, q := Int.Read(data, start, 32);
      if any || !got || size > dynMax { return; }
      ShrinkTo(size);
      ok, p := true, q;
    }

    /** The field branches of the loop. */
    method TakeOne(data: Text, start: nat, any: bool, fields: seq<Field>)
      returns (ok: bool, p: nat, fields': seq<Field>)
      requires Valid() && start < |data| && KindOf(data[start]) != Resizing
      modifies this
      ensures Valid() && (ok ==> start < p <= |data|)
      ensures old(Resume(fields, data[start..], any))
              == if ok then Resume(fields', data[p..], true) else Fail
    {
      var f, view;
      ok, f, view, p := TakeField(data, start);
      fields' := fields + [f];
      if ok && KindOf(data[start]) == Adding {
        DynInsert(view, f.name, f.value);
      }
      JoinedCons(fields, f, DecodeFrom(codec, Table(), data[p..], true));
    }

    /** `hpack_decode_block`. A refused block leaves the table in an unspecified
        state: the connection is torn down. */
    method DecodeBlock(data: Text) returns (ok: bool, fields: seq<Field>)
      requires Valid()
      modifies this
      ensures Valid()
      ensures var o := old(DecodeFrom(codec, Table(), data, false));
              (ok <==> o.Done?) && (ok ==> fields == o.fields && Table() == o.dyn)
    {
      var p, any := 0, false;
      ok, fields := true, [];
      assert data[0..] == data;
      ghost var goal := DecodeFrom(codec, Table(), data, false);
      assert goal.Done? ==> [] + goal.fields == goal.fields;
      while p < |data| && ok
        invariant Valid() && p <= |data|
        invariant if ok then Resume(fields, data[p..], any) == goal else goal == Fail
        decreases |data| - p, ok
      {
        var q;
        if KindOf(data[p]) == Resizing {
          ok, q := TakeResize(data, p, any, fields);
        } else {
          ok, q, fields := TakeOne(data, p, any, fields);
          any := true;
        }
        if ok { p := q; }
      }
      assert ok ==> data[p..] == [] && fields + [] == fields;
    }
  }

  /** The outcome of a block of which some fields are already out. */
  ghost function Joined(fields: seq<Field>, o: Outcome): Outcome {
    if o.Fail? then Fail else Done(fields + o.fields, o.dyn)
  }

  lemma JoinedCons(fields: seq<Field>, f: Field, o: Outcome)
    ensures Joined(fields, Cons(f, o)) == Joined(fields + [f], o)
  {
    if o.Done? {
      assert fields + ([f] + o.fields) == fields + [f] + o.fields;
    }
  }

  ghost function Zip(names: seq<Text>, values: seq<Text>): (r: seq<Field>)
    requires |names| == |values|
    ensures |r| == |names| && forall i :: 0 <= i < |r| ==> r[i] == Field(names[i], values[i])
  {
    seq(|names|, i requires 0 <= i < |names| => Field(names[i], values[i]))
  }
}
