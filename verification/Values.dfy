/**
 The JSON-like values that node results carry, and the deep merge by which a result is
 folded into the data of a run.

 A list, tuple or set is a sequence of values; a set lists its members in some order.
 Values are immutable here: the aliasing of sub-objects between a result and the state
 is not captured.
 */
module Values {

  type Fields = map<string, Value>

  datatype Value =
    | Nil
    | Bool(b: bool)
    | Int(n: int)
    | Float(r: real)
    | Str(s: string)
    | List(items: seq<Value>)
    | Tuple(items: seq<Value>)
    | Set(items: seq<Value>)
    | Dict(fields: Fields)

  /** The value at `key`, or the null value: a dictionary's `get`. */
  function Get(fields: Fields, key: string): Value {
    if key in fields then fields[key] else Nil
  }

  /** Both sides hold a dictionary at `key`, so the merge descends. */
  predicate Descends(target: Fields, delta: Fields, key: string) {
    key in delta && delta[key].Dict? && key in target && target[key].Dict?
  }

  /** The dictionary `target` after `delta` is merged into it. */
  function Merge(target: Value, delta: Value): (merged: Value)
    requires target.Dict? && delta.Dict?
    ensures merged.Dict?
    decreases delta
  {
    Dict(map key | key in target.fields.Keys + delta.fields.Keys ::
           if Descends(target.fields, delta.fields, key)
           then Merge(target.fields[key], delta.fields[key])
           else if key in delta.fields then delta.fields[key] else target.fields[key])
  }

  function MergeFields(target: Fields, delta: Fields): Fields {
    Merge(Dict(target), Dict(delta)).fields
  }

  /** A merge touches no key outside the delta, and replaces every key it does not descend into. */
  lemma MergedKey(target: Fields, delta: Fields, key: string)
    ensures key !in delta ==> Get(MergeFields(target, delta), key) == Get(target, key)
    ensures key in delta && !Descends(target, delta, key)
            ==> Get(MergeFields(target, delta), key) == delta[key]
    ensures Descends(target, delta, key)
            ==> MergeFields(target, delta)[key] == Merge(target[key], delta[key])
  {
    assert MergeFields(target, delta).Keys == target.Keys + delta.Keys;
  }

  lemma MergedKeys(target: Fields, delta: Fields)
    ensures MergeFields(target, delta).Keys == target.Keys + delta.Keys
    ensures forall key :: key in target && key !in delta ==> MergeFields(target, delta)[key] == target[key]
  {
  }

  /** Merging the same delta again changes nothing: a result recorded twice reads as recorded once. */
  lemma {:induction false} MergeIdempotent(target: Value, delta: Value)
    requires target.Dict? && delta.Dict?
    ensures Merge(Merge(target, delta), delta) == Merge(target, delta)
    decreases delta
  {
    var once := Merge(target, delta);
    var twice := Merge(once, delta);
    forall key | key in once.fields.Keys
      ensures twice.fields[key] == once.fields[key]
    {
      if Descends(target.fields, delta.fields, key) {
        MergeIdempotent(target.fields[key], delta.fields[key]);
      } else if key in delta.fields && delta.fields[key].Dict? {
        MergeSelf(delta.fields[key]);
      }
    }
    assert twice.fields == once.fields;
  }

  lemma {:induction false} MergeSelf(value: Value)
    requires value.Dict?
    ensures Merge(value, value) == value
    decreases value
  {
    forall key | key in value.fields
      ensures Merge(value, value).fields[key] == value.fields[key]
    {
      if value.fields[key].Dict? {
        MergeSelf(value.fields[key]);
      }
    }
    assert Merge(value, value).fields == value.fields;
  }

  /** Everything `older` holds is replaced when `newer` is merged over it. */
  predicate Covers(newer: Value, older: Value)
    requires newer.Dict? && older.Dict?
    decreases older
  {
    forall key :: key in older.fields ==>
      && key in newer.fields
      && (newer.fields[key].Dict? && older.fields[key].Dict?
          ==> Covers(newer.fields[key], older.fields[key]))
  }

  lemma {:induction false} CoversMeansReplaces(newer: Value, older: Value)
    requires newer.Dict? && older.Dict?
    ensures Covers(newer, older) <==> Merge(older, newer) == newer
    decreases older
  {
    var merged := Merge(older, newer);
    forall key | key in older.fields && key in newer.fields
      ensures newer.fields[key].Dict? && older.fields[key].Dict? ==>
        (Covers(newer.fields[key], older.fields[key]) <==> merged.fields[key] == newer.fields[key])
      ensures !newer.fields[key].Dict? || !older.fields[key].Dict? ==> merged.fields[key] == newer.fields[key]
    {
      if newer.fields[key].Dict? && older.fields[key].Dict? {
        CoversMeansReplaces(newer.fields[key], older.fields[key]);
      }
    }
    if Covers(newer, older) {
      assert merged.fields == newer.fields;
    } else {
      var key :| key in older.fields && !(key in newer.fields
        && (newer.fields[key].Dict? && older.fields[key].Dict?
            ==> Covers(newer.fields[key], older.fields[key])));
      assert key in merged.fields;
    }
  }

  /**
   At this key, or somewhere below it, `first` puts a non-dictionary over a dictionary of
   `target` and `second` then puts a dictionary there that leaves part of the old one
   uncovered.
   */
  predicate SeversAt(target: Value, first: Value, second: Value, key: string)
    requires target.Dict? && first.Dict? && second.Dict?
    decreases second, 0
  {
    && key in second.fields && second.fields[key].Dict?
    && key in first.fields
    && key in target.fields && target.fields[key].Dict?
    && if first.fields[key].Dict?
       then Severs(target.fields[key], first.fields[key], second.fields[key])
       else !Covers(second.fields[key], target.fields[key])
  }

  predicate Severs(target: Value, first: Value, second: Value)
    requires target.Dict? && first.Dict? && second.Dict?
    decreases second, 1
  {
    exists key | key in second.fields :: SeversAt(target, first, second, key)
  }

  /** Merging is associative exactly where no older dictionary is severed. */
  lemma {:induction false} MergeAssociativeUnlessSevered(target: Value, first: Value, second: Value)
    requires target.Dict? && first.Dict? && second.Dict?
    ensures Merge(Merge(target, first), second) == Merge(target, Merge(first, second))
            <==> !Severs(target, first, second)
    decreases second
  {
    var stepwise := Merge(Merge(target, first), second);
    var joined := Merge(target, Merge(first, second));
    assert stepwise.fields.Keys == joined.fields.Keys;
    forall key | key in joined.fields
      ensures stepwise.fields[key] == joined.fields[key] <==> !SeversAt(target, first, second, key)
    {
      if key in second.fields && second.fields[key].Dict? && key in first.fields
         && key in target.fields && target.fields[key].Dict? {
        if first.fields[key].Dict? {
          MergeAssociativeUnlessSevered(target.fields[key], first.fields[key], second.fields[key]);
        } else {
          CoversMeansReplaces(second.fields[key], target.fields[key]);
        }
      }
    }
    if !Severs(target, first, second) {
      assert stepwise.fields == joined.fields;
    }
  }

  /** A dictionary that is reset to the null value and then set again: the first entry is gone, or it is back. */
  lemma ResetIsNotAssociative()
    ensures var first, reset := Dict(map["k" := Dict(map["x" := Int(1)])]), Dict(map["k" := Nil]);
            var again := Dict(map["k" := Dict(map["y" := Int(2)])]);
            && Merge(Merge(first, reset), again) == again
            && Merge(first, Merge(reset, again)) == Dict(map["k" := Dict(map["x" := Int(1), "y" := Int(2)])])
  {
    var first, reset := Dict(map["k" := Dict(map["x" := Int(1)])]), Dict(map["k" := Nil]);
    var again := Dict(map["k" := Dict(map["y" := Int(2)])]);
    assert Merge(first, reset).fields == reset.fields;
    assert Merge(reset, again).fields == again.fields;
    assert Merge(first.fields["k"], again.fields["k"]).fields == map["x" := Int(1), "y" := Int(2)];
    assert Merge(first, again).fields == map["k" := Dict(map["x" := Int(1), "y" := Int(2)])];
  }

  /** The loop has merged every key of the delta but those in `rest`. */
  ghost predicate MergedSoFar(target: Fields, delta: Fields, rest: set<string>, merged: Fields) {
    && rest <= delta.Keys
    && merged.Keys == target.Keys + (delta.Keys - rest)
    && forall key :: key in merged ==> merged[key] == MergedSoFarAt(target, delta, rest, key)
  }

  ghost function MergedSoFarAt(target: Fields, delta: Fields, rest: set<string>, key: string): Value
    requires key in target.Keys + (delta.Keys - rest)
    requires rest <= delta.Keys
  {
    if key in delta && key !in rest then Get(MergeFields(target, delta), key) else target[key]
  }

  lemma MergedSoFarStep(target: Fields, delta: Fields, rest: set<string>, merged: Fields, key: string, value: Value)
    requires MergedSoFar(target, delta, rest, merged)
    requires key in rest
    requires value == if Descends(target, delta, key) then Merge(target[key], delta[key]) else delta[key]
    ensures MergedSoFar(target, delta, rest - {key}, merged[key := value])
  {
    MergedKey(target, delta, key);
  }

  lemma MergedSoFarDone(target: Fields, delta: Fields, merged: Fields)
    requires MergedSoFar(target, delta, {}, merged)
    ensures merged == MergeFields(target, delta)
  {
    MergedKeys(target, delta);
  }

  /** `_merge_dict`: the loop over the delta's items, in whatever order they come. */
  method MergeInto(target: Fields, delta: Fields) returns (merged: Fields)
    ensures merged == MergeFields(target, delta)
    decreases Dict(delta)
  {
    merged := target;
    var rest := delta.Keys;
    while rest != {}
      invariant MergedSoFar(target, delta, rest, merged)
      decreases |rest|
    {
      var key :| key in rest;
      var value := delta[key];
      if value.Dict? && key in merged && merged[key].Dict? {
        var inner := MergeInto(merged[key].fields, value.fields);
        value := Dict(inner);
      }
      MergedSoFarStep(target, delta, rest, merged, key, value);
      merged := merged[key := value];
      rest := rest - {key};
    }
    MergedSoFarDone(target, delta, merged);
  }
}
