/**
 * Resolving the custom emoji listing (slack.py:244-253). The listing maps
 * each emoji name to an image URL or to `alias:<other name>`. The keys are
 * visited in the dictionary's order and an alias is replaced, in place, by
 * the value its target has at that moment (`None` for a missing target), so
 * the result depends on the order: a target visited earlier has already been
 * rewritten.
 */
module Emoji {
  import opened Wrappers
  import opened Strings
  import opened Collections

  const AliasPrefix: string := "alias:"

  /** The listing as a dictionary whose values may become `None`. */
  function Lift(emoji: map<string, string>): (m: map<string, Option<string>>)
    ensures m.Keys == emoji.Keys
    ensures forall k :: k in emoji ==> m[k] == Some(emoji[k])
  {
    map k | k in emoji :: Some(emoji[k])
  }

  /** `d.get(k)`. */
  function Get(m: map<string, Option<string>>, k: string): Option<string> {
    if k in m then m[k] else None
  }

  /** The name an alias value points at: `val.replace("alias:", "")`. */
  function AliasTarget(val: string): string {
    RemoveAll(val, AliasPrefix)
  }

  /** One round of the loop: the visited key's alias, if it is one, is replaced by its target's current value. */
  function Visit(m: map<string, Option<string>>, key: string): (r: map<string, Option<string>>)
    ensures r.Keys == m.Keys
  {
    if key in m && m[key].Some? && StartsWith(m[key].value, AliasPrefix)
    then m[key := Get(m, AliasTarget(m[key].value))]
    else m
  }

  /** The dictionary after visiting `keys` in order. */
  function VisitAll(m: map<string, Option<string>>, keys: seq<string>): (r: map<string, Option<string>>)
    ensures r.Keys == m.Keys
  {
    if keys == [] then m else Visit(VisitAll(m, keys[..|keys| - 1]), keys[|keys| - 1])
  }

  /** `order` is the iteration order of the listing: every name once. */
  predicate IsOrderOf(order: seq<string>, emoji: map<string, string>) {
    Distinct(order) && (forall k :: k in emoji ==> k in order) && (forall i :: 0 <= i < |order| ==> order[i] in emoji)
  }

  /** The listing `emojis` returns. */
  function Resolved(emoji: map<string, string>, order: seq<string>): map<string, Option<string>> {
    VisitAll(Lift(emoji), order)
  }

  /** `emojis` (slack.py:244-253), visiting the names in the listing's order. */
  method ResolveAliases(emoji: map<string, string>, order: seq<string>) returns (r: map<string, Option<string>>)
    requires IsOrderOf(order, emoji)
    ensures r == Resolved(emoji, order)
  {
    r := Lift(emoji);
    var i := 0;
    while i < |order|
      invariant 0 <= i <= |order|
      invariant r == State(emoji, order, i)
    {
      VisitAllState(emoji, order, i);
      StateStep(emoji, order, i);
      var key := order[i];
      var val := r[key].value;
      if StartsWith(val, AliasPrefix) {
        r := r[key := Get(r, AliasTarget(val))];
      }
      i := i + 1;
    }
    assert order[..i] == order;
  }

  /** The keys are unchanged. */
  lemma ResolvedKeys(emoji: map<string, string>, order: seq<string>)
    ensures Resolved(emoji, order).Keys == emoji.Keys
  {
  }

  /** The dictionary after visiting the first `n` names of the order. */
  function State(emoji: map<string, string>, order: seq<string>, n: nat): map<string, Option<string>>
    requires n <= |order|
  {
    VisitAll(Lift(emoji), order[..n])
  }

  /** One more visit: the state after `n + 1` names is the state after `n` with name `n` visited. */
  lemma StateStep(emoji: map<string, string>, order: seq<string>, n: nat)
    requires n < |order|
    ensures State(emoji, order, n + 1) == Visit(State(emoji, order, n), order[n])
  {
    assert order[..n + 1][..n] == order[..n] && order[..n + 1][n] == order[n];
  }

  /**
   * After visiting the first `n` names: the names not yet visited keep their
   * listed value, and a visited name keeps the value its own visit gave it.
   */
  lemma {:induction false} VisitAllState(emoji: map<string, string>, order: seq<string>, n: nat)
    requires IsOrderOf(order, emoji) && n <= |order|
    ensures forall j :: n <= j < |order| ==> State(emoji, order, n)[order[j]] == Some(emoji[order[j]])
    ensures forall j :: 0 <= j < n ==> State(emoji, order, n)[order[j]] == State(emoji, order, j + 1)[order[j]]
  {
    if n > 0 {
      var m := n - 1;
      VisitAllState(emoji, order, m);
      StateStep(emoji, order, m);
      var prev, cur := State(emoji, order, m), State(emoji, order, n);
      forall j | 0 <= j < |order| && j != m
        ensures cur[order[j]] == prev[order[j]]
      {
        assert order[j] != order[m];
      }
      forall j | n <= j < |order|
        ensures cur[order[j]] == Some(emoji[order[j]])
      {
        assert cur[order[j]] == prev[order[j]];
      }
      forall j | 0 <= j < n
        ensures cur[order[j]] == State(emoji, order, j + 1)[order[j]]
      {
        if j < m {
          assert cur[order[j]] == prev[order[j]];
        }
      }
    } else {
      assert order[..0] == [];
    }
  }

  /** The value a name ends with is the one its own visit gives it. */
  lemma ResolvedAtVisit(emoji: map<string, string>, order: seq<string>, i: nat)
    requires IsOrderOf(order, emoji) && i < |order|
    ensures Resolved(emoji, order)[order[i]] == Visit(State(emoji, order, i), order[i])[order[i]]
    ensures State(emoji, order, i)[order[i]] == Some(emoji[order[i]])
  {
    assert order[..|order|] == order;
    VisitAllState(emoji, order, |order|);
    VisitAllState(emoji, order, i);
    StateStep(emoji, order, i);
  }

  /**
   * The value of every name once all are visited: a value that is not an
   * alias is unchanged; an alias takes its target's value at the time of its
   * visit, which is the target's final value if the target came earlier in
   * the order, its listed value if it comes later (or is the name itself),
   * and `None` if there is no such name.
   */
  lemma ResolvedValue(emoji: map<string, string>, order: seq<string>, i: nat)
    requires IsOrderOf(order, emoji) && i < |order|
    ensures var key := order[i];
      var result := Resolved(emoji, order);
      var target := AliasTarget(emoji[key]);
      && (!StartsWith(emoji[key], AliasPrefix) ==> result[key] == Some(emoji[key]))
      && (StartsWith(emoji[key], AliasPrefix) && target !in emoji ==> result[key] == None)
      && (StartsWith(emoji[key], AliasPrefix) && target in order[..i] ==> result[key] == Get(result, target))
      && (StartsWith(emoji[key], AliasPrefix) && target in order[i..] ==> result[key] == Some(emoji[target]))
  {
    var key := order[i];
    var target := AliasTarget(emoji[key]);
    ResolvedAtVisit(emoji, order, i);
    var before := State(emoji, order, i);
    if StartsWith(emoji[key], AliasPrefix) {
      if target in order[..i] {
        var j :| 0 <= j < i && order[..i][j] == target;
        assert order[j] == target;
        VisitAllState(emoji, order, i);
        ResolvedAtVisit(emoji, order, j);
        StateStep(emoji, order, j);
      } else if target in order[i..] {
        var j :| 0 <= j < |order| - i && order[i..][j] == target;
        assert order[i + j] == target;
        VisitAllState(emoji, order, i);
      }
    }
  }

  /** `alias:` followed by a name without `:` is an alias of that name. */
  lemma AliasOf(name: string)
    requires ':' !in name
    ensures StartsWith(AliasPrefix + name, AliasPrefix)
    ensures AliasTarget(AliasPrefix + name) == name
  {
    assert (AliasPrefix + name)[..|AliasPrefix|] == AliasPrefix;
    RemoveAllLeading(AliasPrefix, name);
    RemoveAllNone(name);
  }

  /** A name without `:` holds no `alias:` and is left as it is. */
  lemma {:induction false} RemoveAllNone(name: string)
    requires ':' !in name
    ensures RemoveAll(name, AliasPrefix) == name
    decreases |name|
  {
    if name != [] {
      assert !StartsWith(name, AliasPrefix) by {
        if |AliasPrefix| <= |name| {
          assert name[..|AliasPrefix|][5] == name[5] && name[5] in name;
        }
      }
      RemoveAllNone(name[1..]);
    }
  }

  /**
   * The order matters for an alias of an alias: with `a -> alias:b`,
   * `b -> alias:c` and `c` an image, visiting `a` first leaves it pointing at
   * `alias:c`, while visiting `b` first gives `a` the image.
   */
  lemma AliasOrderMatters(image: string)
    requires !StartsWith(image, AliasPrefix)
    ensures var emoji := map["a" := AliasPrefix + "b", "b" := AliasPrefix + "c", "c" := image];
      && Resolved(emoji, ["a", "b", "c"])["a"] == Some(AliasPrefix + "c")
      && Resolved(emoji, ["b", "a", "c"])["a"] == Some(image)
  {
    var emoji := map["a" := AliasPrefix + "b", "b" := AliasPrefix + "c", "c" := image];
    AliasOf("b");
    AliasOf("c");
    var first: seq<string> := ["a", "b", "c"];
    var second: seq<string> := ["b", "a", "c"];
    assert IsOrderOf(first, emoji);
    assert IsOrderOf(second, emoji);
    ResolvedValue(emoji, first, 0);
    assert "b" in first[0..];
    ResolvedValue(emoji, second, 0);
    assert "c" in second[0..];
    ResolvedValue(emoji, second, 1);
    assert "b" in second[..1];
  }
}
