/** Field descriptors (`wire::field_`) and the compile-time `wire::sum`. */
module WireField {
  import opened Bytes

  /** `field_<T>`: a static name linked to a value. For decoding the value
      is what the field is read as, for encoding it is the value written. */
  datatype Field<+T> = Field(name: seq<byte>, value: T)

  /** `wire::field(name, value)`. */
  function MakeField<T>(name: seq<byte>, value: T): (f: Field<T>)
    ensures f.name == name
  {
    Field(name, value)
  }

  /** `field_::get_value`: the value the descriptor refers to. */
  function GetValue<T>(f: Field<T>): (v: T)
    ensures MakeField(f.name, v) == f
  {
    f.value
  }

  /** A descriptor made by `field` hands back the very value it was given,
      under the given name. */
  lemma GetValueOfMakeField<T>(name: seq<byte>, value: T)
    ensures GetValue(MakeField(name, value)) == value
    ensures MakeField(name, value).name == name
  {
  }

  /** The names of a descriptor list, in declaration order. */
  function Names<T>(fields: seq<Field<T>>): (names: seq<seq<byte>>)
    ensures |names| == |fields|
    ensures forall i :: 0 <= i < |fields| ==> names[i] == fields[i].name
  {
    if |fields| == 0 then [] else [fields[0].name] + Names(fields[1..])
  }

  /** `wire::sum(args...)`: `sum()` is 0 and `sum(h, t...)` is `h + sum(t...)`.
      Over counts, which are never negative, the total bounds every term. */
  function Sum(xs: seq<int>): (total: int)
    ensures (forall i :: 0 <= i < |xs| ==> 0 <= xs[i]) ==>
              0 <= total && forall i :: 0 <= i < |xs| ==> xs[i] <= total
  {
    if |xs| == 0 then 0
    else
      assert forall i :: 1 <= i < |xs| ==> xs[i] == xs[1..][i - 1];
      xs[0] + Sum(xs[1..])
  }

  /** Sums of concatenations add up. */
  lemma {:induction false} SumAppend(xs: seq<int>, ys: seq<int>)
    ensures Sum(xs + ys) == Sum(xs) + Sum(ys)
  {
    if |xs| == 0 {
      assert xs + ys == ys;
    } else {
      assert (xs + ys)[1..] == xs[1..] + ys;
      SumAppend(xs[1..], ys);
    }
  }

  /** `sum(count()...)` and `sum(size_t(is_required())...)` add a 1 per
      field, so both are the number of fields. */
  lemma {:induction false} SumOfOnes(xs: seq<int>)
    requires forall i :: 0 <= i < |xs| ==> xs[i] == 1
    ensures Sum(xs) == |xs|
  {
    if |xs| > 0 {
      SumOfOnes(xs[1..]);
    }
  }

  /** `sum` of a list that is all zeros except one entry is that entry: the
      shape of `sum(fields.try_read(...)...)` when one tracker claims a key. */
  lemma {:induction false} SumOfSingleton(xs: seq<int>, k: nat)
    requires k < |xs|
    requires forall i :: 0 <= i < |xs| && i != k ==> xs[i] == 0
    ensures Sum(xs) == xs[k]
  {
    if k == 0 {
      SumOfZeros(xs[1..]);
    } else {
      SumOfSingleton(xs[1..], k - 1);
    }
  }

  lemma {:induction false} SumOfZeros(xs: seq<int>)
    requires forall i :: 0 <= i < |xs| ==> xs[i] == 0
    ensures Sum(xs) == 0
  {
    if |xs| > 0 {
      SumOfZeros(xs[1..]);
    }
  }
}
