/** The stream object that serialize functions are handed (src/core/state_stream.h). */
module StateStreamDevice {
  import opened Types
  import opened StateCodec
  import opened StateRoundTrip

  class StateStream {
    const input: Bytes
    const loading: bool
    var position: nat
    var error: bool
    var output: Bytes

    ghost predicate Valid()
      reads this
    {
      position <= |input|
    }

    ghost function ReaderState(): Reader
      reads this
    {
      Reader(input, position, error)
    }

    constructor ForSaving()
      ensures Valid() && !loading && !error && output == []
    {
      input, loading, position, error, output := [], false, 0, false, [];
    }

    constructor ForLoading(data: Bytes)
      ensures Valid() && loading && ReaderState() == Reader(data, 0, false)
    {
      input, loading, position, error, output := data, true, 0, false, [];
    }

    /** The saving half of sync: bytes are pushed least significant first. */
    method PushNumber(t: IntType, value: int)
      requires Fits(t, value)
      modifies this`output
      ensures output == old(output) + Encode(t, value)
    {
      hide Pow256, Le;
      var encoded: nat := Unsigned(t, value);
      var rest, i := encoded, 0;
      while i < t.width
        invariant 0 <= i <= t.width
        invariant old(output) + Le(encoded, t.width) == output + Le(rest, t.width - i)
      {
        LeStep(rest, t.width - i);
        output := output + [rest % 256];
        rest := rest / 256;
        i := i + 1;
      }
    }

    /** The loading half, with enough bytes left. */
    method PopNumber(t: IntType) returns (value: int)
      requires Valid() && t.width <= |input| - position
      modifies this`position
      ensures Valid() && position == old(position) + t.width
      ensures value == Decode(t, input[old(position)..position])
    {
      hide Pow256, FromLe;
      ghost var bytes := input[position..position + t.width];
      var decoded, weight, i := 0, 1, 0;
      PowZero();
      assert bytes[0..] == bytes;
      while i < t.width
        invariant 0 <= i <= t.width && position == old(position) + i && weight == Pow256(i)
        invariant FromLe(bytes) == decoded + weight * FromLe(bytes[i..])
      {
        FromLeStep(bytes, i, weight);
        decoded := decoded + weight * input[position];
        weight := 256 * weight;
        position := position + 1;
        i := i + 1;
        PowNext(i);
      }
      FromLeEnd(bytes);
      value := if t.signed && 2 * decoded >= Pow256(t.width) then decoded - Pow256(t.width) else decoded;
    }

    /** sync of an integer or enum. */
    method Sync(t: IntType, value: int) returns (value': int)
      requires Valid() && Fits(t, value)
      modifies this`output, this`position, this`error
      ensures Valid() && Fits(t, value')
      ensures !loading ==>
                output == old(output) + Encode(t, value) && value' == value && ReaderState() == old(ReaderState())
      ensures loading ==> (ReaderState(), value') == ReadNumber(old(ReaderState()), t, value) && output == old(output)
    {
      hide Decode, Encode, Fits;
      value' := value;
      if !loading {
        PushNumber(t, value);
      } else if |input| - position < t.width {
        error := true;
      } else {
        value' := PopNumber(t);
      }
    }

    method SyncBool(value: bool) returns (value': bool)
      requires Valid()
      modifies this`output, this`position, this`error
      ensures Valid()
      ensures !loading ==>
                output == old(output) + SaveField(Flag, Bool(value)) && value' == value
                && ReaderState() == old(ReaderState())
      ensures loading ==> (ReaderState(), value') == ReadFlag(old(ReaderState()), value) && output == old(output)
    {
      value' := value;
      var t := IntType(1, false);
      var encoded := Sync(t, if value then 1 else 0);
      if loading {
        if encoded > 1 { error := true; } else { value' := encoded != 0; }
      }
      OneByte(old(ReaderState()), if value then 1 else 0);
    }

    method SyncBytes(data: Bytes) returns (data': Bytes)
      requires Valid()
      modifies this`output, this`position, this`error
      ensures Valid()
      ensures !loading ==> output == old(output) + data && data' == data && ReaderState() == old(ReaderState())
      ensures loading ==> (ReaderState(), data') == ReadBlock(old(ReaderState()), data) && output == old(output)
    {
      data' := data;
      if !loading {
        output := output + data;
      } else if |input| - position < |data| {
        error := true;
      } else {
        data' := input[position..position + |data|];
        position := position + |data|;
      }
    }

    /** sync_span and sync_array, and the loops at the end of the vector functions. */
    method SyncSpan(t: IntType, values: seq<int>) returns (values': seq<int>)
      requires Valid() && AllFit(t, values)
      modifies this`output, this`position, this`error
      ensures Valid()
      ensures !loading ==>
                output == old(output) + EncodeAll(t, values) && values' == values && ReaderState() == old(ReaderState())
      ensures loading ==> (ReaderState(), values') == ReadEach(old(ReaderState()), t, values) && output == old(output)
    {
      hide Encode, Decode, Fits, ReadEach, EncodeAll, ReadNumber;
      values' := [];
      ghost var whole := ReadEach(ReaderState(), t, values);
      assert values[0..] == values && whole.1 == [] + whole.1;
      for i := 0 to |values|
        invariant Valid() && |values'| == i
        invariant !loading ==> values' == values[..i] && ReaderState() == old(ReaderState())
        invariant !loading ==> old(output) + EncodeAll(t, values) == output + EncodeAll(t, values[i..])
        invariant loading ==> output == old(output)
        invariant loading ==>
          var rest := ReadEach(ReaderState(), t, values[i..]); whole.0 == rest.0 && whole.1 == values' + rest.1
      {
        EachStep(ReaderState(), t, values, i);
        var value := Sync(t, values[i]);
        values' := values' + [value];
      }
      NothingLeft(ReaderState(), t);
      assert values[..|values|] == values && values[|values|..] == [] && values' + [] == values';
    }

    method SyncVector(t: IntType, values: seq<int>) returns (values': seq<int>)
      requires Valid() && Typed(Vector(t), Vec(values))
      modifies this`output, this`position, this`error
      ensures Valid()
      ensures !loading ==>
                output == old(output) + (if error then Encode(SIZE_TYPE, |values|)
                    else SaveField(Vector(t), Vec(values)))
                && values' == values && ReaderState() == old(ReaderState())
      ensures loading ==> (ReaderState(), values') == ReadVector(old(ReaderState()), t, values) && output == old(output)
    {
      hide Decode, Encode, Fits, ReadElements, ReadEach, EncodeAll, Next;
      values' := values;
      var size := Sync(SIZE_TYPE, |values|);
      if error { return; }
      if loading {
        FitsSize(size);
        if size > (|input| - position) / t.width {
          error := true;
          return;
        }
        QuotientCovers(size, t.width, |input| - position);
        values' := Resize(values, size);
        ResizeFits(t, values, size);
        EachIsElements(ReaderState(), t, values');
      }
      values' := SyncSpan(t, values');
    }

    /** sync_fixed_vector: a size other than the one that is there is an error. */
    method SyncFixedVector(t: IntType, values: seq<int>) returns (values': seq<int>)
      requires Valid() && Fits(SIZE_TYPE, |values|) && AllFit(t, values)
      modifies this`output, this`position, this`error
      ensures Valid() && |values'| == |values|
      ensures !loading ==>
                output == old(output) + (if error then Encode(SIZE_TYPE, |values|) else EncodeSized(t, values))
                && values' == values && ReaderState() == old(ReaderState())
      ensures loading ==> (ReaderState(), values') == ReadFixed(old(ReaderState()), t, values) && output == old(output)
    {
      hide Decode, Encode, Fits, ReadEach, EncodeAll, Next;
      values' := values;
      var size := Sync(SIZE_TYPE, |values|);
      if error { return; }
      if loading && size != |values| {
        error := true;
        return;
      }
      values' := SyncSpan(t, values');
    }

    /** sync_optional_fixed_vector: the vector takes the size that was saved, which is 0 or `fixedSize`. */
    method SyncOptionalFixedVector(t: IntType, values: seq<int>, fixedSize: nat) returns (values': seq<int>)
      requires Valid() && Fits(SIZE_TYPE, |values|) && AllFit(t, values)
      modifies this`output, this`position, this`error
      ensures Valid()
      ensures !loading ==>
                output == old(output) + (if error then Encode(SIZE_TYPE, |values|) else EncodeSized(t, values))
                && values' == values && ReaderState() == old(ReaderState())
      ensures loading ==>
                (ReaderState(), values') == ReadOptional(old(ReaderState()), t, values, fixedSize)
                && output == old(output)
    {
      hide Decode, Encode, Fits, ReadEach, EncodeAll, Next, Resize;
      values' := values;
      var size := Sync(SIZE_TYPE, |values|);
      if error { return; }
      if loading {
        if size != 0 && size != fixedSize {
          error := true;
          return;
        }
        ResizeFits(t, values, size);
        values' := Resize(values, size);
      }
      values' := SyncSpan(t, values');
    }
  }

  /** The element at i, and then the rest. */
  lemma EachStep(r: Reader, t: IntType, values: seq<int>, i: nat)
    requires ReaderOk(r) && AllFit(t, values) && i < |values|
    ensures EncodeAll(t, values[i..]) == Encode(t, values[i]) + EncodeAll(t, values[i + 1..])
    ensures var (q, first) := ReadNumber(r, t, values[i]);
            var (p, rest) := ReadEach(q, t, values[i + 1..]);
            ReadEach(r, t, values[i..]) == (p, [first] + rest)
  {
    assert values[i..][0] == values[i] && values[i..][1..] == values[i + 1..];
  }

  lemma NothingLeft(r: Reader, t: IntType)
    requires ReaderOk(r)
    ensures EncodeAll(t, []) == [] && ReadEach(r, t, []) == (r, [])
  {}

  lemma PowZero()
    ensures Pow256(0) == 1
  {}

  lemma PowNext(i: nat)
    requires i > 0
    ensures Pow256(i) == 256 * Pow256(i - 1)
  {}

  lemma FromLeStep(bytes: Bytes, i: nat, weight: nat)
    requires i < |bytes|
    ensures weight * FromLe(bytes[i..]) == weight * bytes[i] + 256 * weight * FromLe(bytes[i + 1..])
  {
    assert bytes[i..][1..] == bytes[i + 1..];
    var rest := FromLe(bytes[i + 1..]);
    assert weight * (bytes[i] + 256 * rest) == weight * bytes[i] + weight * (256 * rest);
  }

  lemma FromLeEnd(bytes: Bytes)
    ensures FromLe(bytes[|bytes|..]) == 0
  {}

  lemma LeStep(v: nat, n: nat)
    requires n > 0
    ensures Le(v, n) == [v % 256] + Le(v / 256, n - 1)
  {}

  lemma OneByte(r: Reader, v: u8)
    requires ReaderOk(r) && v <= 1
    ensures Encode(IntType(1, false), v) == [v]
    ensures 1 <= Remaining(r) ==> Decode(IntType(1, false), Next(r, 1)) == r.input[r.position]
  {
    assert Le(v / 256, 0) == [];
    if 1 <= Remaining(r) { assert FromLe(Next(r, 1)[1..]) == 0; }
  }
}
