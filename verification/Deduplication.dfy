/**
 * Deduplication by key: items are looked up by a key, the deduplicator is asked about the keys, and its
 * answer is turned back into items.
 */
module Deduplication {
  import opened Wrappers

  /** The item's property as JSON text; an item without it has the empty key. */
  function Key<T(!new)>(value: T -> Option<string>, x: T): string {
    match value(x)
    case Some(json) => json
    case None => ""
  }

  /** Items have one key when their properties have one JSON text, none of which is empty, or are both missing. */
  lemma SameKeyIff<T(!new)>(value: T -> Option<string>, x: T, y: T)
    requires value(x) != Some("") && value(y) != Some("")
    ensures Key(value, x) == Key(value, y) <==> value(x) == value(y)
    ensures value(x).Some? ==> Key(value, x) == value(x).value
    ensures Key(value, x) == "" <==> value(x).None?
  {
  }

  /** What the deduplicator answers about the keys it was given. */
  datatype Answer = Answer(new_: seq<string>, processed: seq<string>)

  predicate Unique(keys: seq<string>) {
    forall i, j :: 0 <= i < j < |keys| ==> keys[i] != keys[j]
  }

  /** Each key once, as new or as processed, and no other. */
  ghost predicate Partitions(answer: Answer, keys: set<string>) {
    Unique(answer.new_ + answer.processed) && forall k :: k in answer.new_ + answer.processed <==> k in keys
  }

  ghost function Keys<T(!new)>(value: T -> Option<string>, items: seq<T>): set<string> {
    set x | x in items :: Key(value, x)
  }

  /** `i` is where the last item with key `k` is. */
  ghost predicate LastAt<T(!new)>(value: T -> Option<string>, items: seq<T>, k: string, i: nat) {
    && i < |items| && Key(value, items[i]) == k
    && forall j :: i < j < |items| ==> Key(value, items[j]) != k
  }

  /** `undefined` where the key is not one of the items'. */
  function Pick<T>(items: seq<T>, lookup: map<string, nat>, keys: seq<string>): (r: seq<Option<T>>)
    ensures |r| == |keys|
  {
    seq(|keys|, i requires 0 <= i < |keys| =>
      if keys[i] in lookup && lookup[keys[i]] < |items| then Some(items[lookup[keys[i]]]) else None)
  }

  /** The lookup the reduction builds: every key of the items, at its last item. */
  ghost predicate IsLookup<T(!new)>(value: T -> Option<string>, items: seq<T>, lookup: map<string, nat>) {
    && lookup.Keys == Keys(value, items)
    && forall k :: k in lookup ==> LastAt(value, items, k, lookup[k])
  }

  method ItemLookup<T(!new)>(value: T -> Option<string>, items: seq<T>) returns (lookup: map<string, nat>)
    ensures IsLookup(value, items, lookup)
  {
    lookup := map[];
    for index := 0 to |items|
      invariant IsLookup(value, items[..index], lookup)
    {
      assert items[..index + 1] == items[..index] + [items[index]];
      ghost var before := lookup;
      lookup := lookup[Key(value, items[index]) := index];
      forall k | k in lookup ensures LastAt(value, items[..index + 1], k, lookup[k]) {
        if k != Key(value, items[index]) { assert LastAt(value, items[..index], k, before[k]); }
      }
    }
    assert items[..|items|] == items;
  }

  /** The items answered for, new ones first. */
  datatype Checked<T> = Checked(new_: seq<Option<T>>, processed: seq<Option<T>>)

  method CheckProcessedItemsAndRecord<T(!new)>(
    value: T -> Option<string>, items: seq<T>, deduplicator: set<string> -> Answer)
    returns (checked: Checked<T>)
    ensures var answer := deduplicator(Keys(value, items));
      Partitions(answer, Keys(value, items)) ==> Represents(value, items, answer, checked)
  {
    var lookup := ItemLookup(value, items);
    var answer := deduplicator(lookup.Keys);
    checked := Checked(Pick(items, lookup, answer.new_), Pick(items, lookup, answer.processed));
    if Partitions(answer, Keys(value, items)) {
      PickedRepresent(value, items, lookup, answer);
    }
  }

  /** `out` is the last item with key `k`. */
  ghost predicate IsLast<T(!new)>(value: T -> Option<string>, items: seq<T>, k: string, out: Option<T>) {
    exists j: nat :: LastAt(value, items, k, j) && out == Some(items[j])
  }

  /** The outputs, in order, are the last items of the keys answered. */
  ghost predicate AreLast<T(!new)>(value: T -> Option<string>, items: seq<T>, keys: seq<string>, out: seq<Option<T>>) {
    && |out| == |keys|
    && forall i :: 0 <= i < |keys| ==> IsLast(value, items, keys[i], out[i])
  }

  ghost predicate Represents<T(!new)>(
    value: T -> Option<string>, items: seq<T>, answer: Answer, checked: Checked<T>)
  {
    && AreLast(value, items, answer.new_, checked.new_)
    && AreLast(value, items, answer.processed, checked.processed)
  }

  lemma PickedAreLast<T(!new)>(
    value: T -> Option<string>, items: seq<T>, lookup: map<string, nat>, keys: seq<string>)
    requires IsLookup(value, items, lookup) && forall k :: k in keys ==> k in lookup
    ensures AreLast(value, items, keys, Pick(items, lookup, keys))
  {
    forall i | 0 <= i < |keys| ensures IsLast(value, items, keys[i], Pick(items, lookup, keys)[i]) {
      assert keys[i] in keys;
      assert LastAt(value, items, keys[i], lookup[keys[i]]);
    }
  }

  lemma PickedRepresent<T(!new)>(
    value: T -> Option<string>, items: seq<T>, lookup: map<string, nat>, answer: Answer)
    requires IsLookup(value, items, lookup) && Partitions(answer, Keys(value, items))
    ensures Represents(
      value, items, answer, Checked(Pick(items, lookup, answer.new_), Pick(items, lookup, answer.processed)))
  {
    PickedAreLast(value, items, lookup, answer.new_);
    PickedAreLast(value, items, lookup, answer.processed);
  }

  /** The positions in the output whose item has key `k`. */
  ghost predicate HoldsKey<T(!new)>(value: T -> Option<string>, out: seq<Option<T>>, k: string, i: int) {
    0 <= i < |out| && out[i].Some? && Key(value, out[i].value) == k
  }

  /** Position `i` of the outputs, and no other, is for key `k`, with its last item and on the side answered. */
  ghost predicate AnswersFor<T(!new)>(
    value: T -> Option<string>, items: seq<T>, answer: Answer, checked: Checked<T>, k: string, i: nat)
  {
    var out := checked.new_ + checked.processed;
    && HoldsKey(value, out, k, i)
    && (forall j :: HoldsKey(value, out, k, j) ==> j == i)
    && IsLast(value, items, k, out[i])
    && (i < |checked.new_| <==> k in answer.new_)
  }

  /**
   * New and processed outputs together hold exactly one item for each distinct key of the input; it is
   * the last input item with that key, and it is among the new exactly when its key was answered new.
   */
  lemma OnePerKey<T(!new)>(value: T -> Option<string>, items: seq<T>, answer: Answer, checked: Checked<T>, x: T)
    requires Partitions(answer, Keys(value, items)) && Represents(value, items, answer, checked) && x in items
    ensures exists i: nat :: AnswersFor(value, items, answer, checked, Key(value, x), i)
  {
    var k, out, keys := Key(value, x), checked.new_ + checked.processed, answer.new_ + answer.processed;
    AreLastConcat(value, items, answer, checked);
    assert k in Keys(value, items);
    var i: nat :| 0 <= i < |keys| && keys[i] == k;
    assert IsLast(value, items, keys[i], out[i]) && HoldsKey(value, out, k, i);
    forall j | HoldsKey(value, out, k, j) ensures j == i {
      assert IsLast(value, items, keys[j], out[j]) && keys[j] == k;
    }
    assert i < |checked.new_| <==> k in answer.new_ by {
      assert i < |answer.new_| ==> answer.new_[i] == k;
      assert forall j :: 0 <= j < |answer.new_| ==> answer.new_[j] == keys[j];
    }
    assert AnswersFor(value, items, answer, checked, k, i);
  }

  lemma AreLastConcat<T(!new)>(value: T -> Option<string>, items: seq<T>, answer: Answer, checked: Checked<T>)
    requires Represents(value, items, answer, checked)
    ensures AreLast(value, items, answer.new_ + answer.processed, checked.new_ + checked.processed)
  {
    var keys, out := answer.new_ + answer.processed, checked.new_ + checked.processed;
    forall i | 0 <= i < |keys| ensures IsLast(value, items, keys[i], out[i]) {
      if i < |answer.new_| {
        assert keys[i] == answer.new_[i] && out[i] == checked.new_[i];
      } else {
        assert keys[i] == answer.processed[i - |answer.new_|] && out[i] == checked.processed[i - |answer.new_|];
      }
    }
  }

  /** No output is of another key, and there are as many as the input has keys. */
  lemma NothingElse<T(!new)>(value: T -> Option<string>, items: seq<T>, answer: Answer, checked: Checked<T>)
    requires Partitions(answer, Keys(value, items)) && Represents(value, items, answer, checked)
    ensures forall o :: o in checked.new_ + checked.processed ==> o.Some? && o.value in items
    ensures |checked.new_| + |checked.processed| == |Keys(value, items)|
  {
    AreLastConcat(value, items, answer, checked);
    var keys, out := answer.new_ + answer.processed, checked.new_ + checked.processed;
    forall o | o in out ensures o.Some? && o.value in items {
      var i :| 0 <= i < |out| && out[i] == o;
      assert IsLast(value, items, keys[i], out[i]);
    }
    UniqueCounts(keys);
    assert (set k | k in keys) == Keys(value, items);
  }

  lemma {:induction false} UniqueCounts(keys: seq<string>)
    requires Unique(keys)
    ensures |set k | k in keys| == |keys|
  {
    if keys != [] {
      var rest, last := keys[..|keys| - 1], keys[|keys| - 1];
      UniqueCounts(rest);
      assert (set k | k in keys) == (set k | k in rest) + {last};
      assert last !in (set k | k in rest);
    }
  }
}
