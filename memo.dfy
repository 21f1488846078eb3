/**
 * The memo slot that `persist_to_file` (slack.py:215-233) puts in front of
 * the user and emoji listings. The slot starts with whatever the cache file
 * held (nothing if it could not be read); a call returns the slot's value
 * when that value is truthy, and otherwise calls the Slack API, stores the
 * answer in the slot and writes it to the file. An empty dictionary is falsy,
 * so an empty answer is fetched again on every call.
 */
module Memo {
  import opened Wrappers

  /** Python truthiness of the slot: `None` and `{}` are falsy. */
  predicate Filled<K(==), V>(slot: Option<map<K, V>>) {
    slot.Some? && |slot.value| > 0
  }

  /** What one call does: the new slot, the value returned, and whether the API was called. */
  datatype Outcome<K(==), V> = Outcome(slot: Option<map<K, V>>, result: map<K, V>, fetched: bool)

  /** One call with slot contents `slot`, where `answer` is what the API would answer. */
  function Call<K(==), V>(slot: Option<map<K, V>>, answer: map<K, V>): (o: Outcome<K, V>)
    ensures o.slot == Some(o.result)
    ensures o.fetched <==> !Filled(slot)
    ensures Filled(slot) ==> o.slot == slot && o.result == slot.value
    ensures !Filled(slot) ==> o.result == answer
  {
    if Filled(slot) then Outcome(slot, slot.value, false)
    else Outcome(Some(answer), answer, true)
  }

  /** The number of API calls made by a series of calls, the `i`-th answered by `answers[i]` if it fetches. */
  function Fetches<K(==), V>(slot: Option<map<K, V>>, answers: seq<map<K, V>>): nat
    decreases |answers|
  {
    if answers == [] then 0
    else
      var o := Call(slot, answers[0]);
      (if o.fetched then 1 else 0) + Fetches(o.slot, answers[1..])
  }

  /** The values returned by a series of calls. */
  function Results<K(==), V>(slot: Option<map<K, V>>, answers: seq<map<K, V>>): (rs: seq<map<K, V>>)
    ensures |rs| == |answers|
    decreases |answers|
  {
    if answers == [] then []
    else
      var o := Call(slot, answers[0]);
      [o.result] + Results(o.slot, answers[1..])
  }

  /** A filled slot is never refetched, and every later call returns its value. */
  lemma {:induction false} FilledStaysPut<K, V>(slot: Option<map<K, V>>, answers: seq<map<K, V>>)
    requires Filled(slot)
    ensures Fetches(slot, answers) == 0
    ensures forall i :: 0 <= i < |answers| ==> Results(slot, answers)[i] == slot.value
    decreases |answers|
  {
    if answers != [] {
      FilledStaysPut(slot, answers[1..]);
    }
  }

  /** Once the API answers with a non-empty listing, no later call reaches it again. */
  lemma {:induction false} AtMostOneFetch<K, V>(slot: Option<map<K, V>>, answers: seq<map<K, V>>)
    requires forall i :: 0 <= i < |answers| ==> |answers[i]| > 0
    ensures Fetches(slot, answers) <= 1
    ensures Fetches(slot, answers) == 1 <==> answers != [] && !Filled(slot)
  {
    if answers != [] {
      var o := Call(slot, answers[0]);
      assert Filled(o.slot);
      FilledStaysPut(o.slot, answers[1..]);
    }
  }

  /** An empty answer leaves the slot falsy, so each call fetches again. */
  lemma {:induction false} EmptyAlwaysRefetches<K, V>(slot: Option<map<K, V>>, answers: seq<map<K, V>>)
    requires !Filled(slot)
    requires forall i :: 0 <= i < |answers| ==> answers[i] == map[]
    ensures Fetches(slot, answers) == |answers|
    decreases |answers|
  {
    if answers != [] {
      assert !Filled(Call(slot, answers[0]).slot);
      EmptyAlwaysRefetches(Call(slot, answers[0]).slot, answers[1..]);
    }
  }

  /** The memo slot of one decorated function, with the cache file it mirrors. */
  class Slot<K(==), V> {
    /** `cached['b']`. */
    var cached: Option<map<K, V>>
    /** The contents of the cache file, `None` when it is missing or unreadable. */
    var file: Option<map<K, V>>
    /** How many times the API has been called through this slot. */
    var fetches: nat

    /** The slot always holds what the file holds. */
    ghost predicate Valid()
      reads this
    {
      cached == file
    }

    /** Decoration: the slot is loaded from the file. */
    constructor(onDisk: Option<map<K, V>>)
      ensures Valid()
      ensures cached == onDisk && file == onDisk && fetches == 0
    {
      cached := onDisk;
      file := onDisk;
      fetches := 0;
    }

    /** `new_func`: `answer` is what the API call would return. */
    method Get(answer: map<K, V>) returns (r: map<K, V>)
      requires Valid()
      modifies this
      ensures Valid()
      ensures var o := Call(old(cached), answer);
        && r == o.result && cached == o.slot
        && fetches == old(fetches) + (if o.fetched then 1 else 0)
    {
      if !Filled(cached) {
        cached := Some(answer);
        file := cached;
        fetches := fetches + 1;
      }
      r := cached.value;
    }
  }
}
