/** The summary of `src/components/ResultsScreen.tsx`: the completed sets of
    the last result grouped by exercise name (the `reduce` into an object
    and its `Object.entries`), and the Finish button. */
module Results {
  import opened Common
  import opened Types
  import opened Store

  /** One entry of `Object.entries(byExercise)`. */
  datatype Group = Group(name: string, sets: seq<CompletedSet>)

  /** The exercise name of every completed set, in order. */
  function Names(completed: seq<CompletedSet>): (r: seq<string>)
    ensures |r| == |completed|
    ensures forall i :: 0 <= i < |r| ==> r[i] == completed[i].exerciseName
  {
    seq(|completed|, i requires 0 <= i < |completed| => completed[i].exerciseName)
  }

  /** The positions of the sets named `name`, ascending: exactly the
      positions whose set carries that name. */
  function Positions(completed: seq<CompletedSet>, name: string): (r: seq<nat>)
    ensures forall k :: 0 <= k < |r| ==> r[k] < |completed| && completed[r[k]].exerciseName == name
    ensures forall k, l :: 0 <= k < l < |r| ==> r[k] < r[l]
    ensures forall i :: 0 <= i < |completed| && completed[i].exerciseName == name ==> i in r
  {
    if |completed| == 0 then []
    else
      var front := Positions(completed[..|completed| - 1], name);
      if completed[|completed| - 1].exerciseName == name then front + [|completed| - 1] else front
  }

  /** The sets named `name`, in their original relative order
      (`SetsNamedInOrder`). */
  function SetsNamed(completed: seq<CompletedSet>, name: string): (r: seq<CompletedSet>)
    ensures |r| <= |completed|
    ensures forall k :: 0 <= k < |r| ==> r[k].exerciseName == name
  {
    if |completed| == 0 then []
    else
      var last := completed[|completed| - 1];
      SetsNamed(completed[..|completed| - 1], name) + (if last.exerciseName == name then [last] else [])
  }

  /** The sets of a group are the sets at the name's positions, in order. */
  lemma {:induction false} SetsNamedInOrder(completed: seq<CompletedSet>, name: string)
    ensures |SetsNamed(completed, name)| == |Positions(completed, name)|
    ensures forall k :: 0 <= k < |SetsNamed(completed, name)| ==>
      SetsNamed(completed, name)[k] == completed[Positions(completed, name)[k]]
  {
    if |completed| > 0 {
      var n := |completed| - 1;
      var front := completed[..n];
      SetsNamedInOrder(front, name);
      var ps, ss := Positions(front, name), SetsNamed(front, name);
      forall k | 0 <= k < |ss| ensures ss[k] == completed[ps[k]] {
        assert completed[ps[k]] == front[ps[k]];
      }
      if completed[n].exerciseName == name {
        assert Positions(completed, name) == ps + [n];
        assert SetsNamed(completed, name) == ss + [completed[n]];
      } else {
        assert Positions(completed, name) == ps;
        assert SetsNamed(completed, name) == ss;
      }
    }
  }

  /** The grouping the screen lists: one group per distinct name, in order of
      first appearance, holding that name's sets. */
  function GroupsOf(completed: seq<CompletedSet>): seq<Group> {
    var keys := Dedup(Names(completed));
    seq(|keys|, i requires 0 <= i < |keys| => Group(keys[i], SetsNamed(completed, keys[i])))
  }

  /** What the `reduce` has built after the sets `done`: the keys in
      insertion order are their distinct names, and each key maps to the
      sets of that name. */
  ghost predicate Accumulated(done: seq<CompletedSet>, keys: seq<string>, acc: map<string, seq<CompletedSet>>) {
    && keys == Dedup(Names(done))
    && (forall k :: k in acc <==> k in keys)
    && (forall k :: k in acc ==> acc[k] == SetsNamed(done, k))
  }

  /** The accumulator after one more set: a key and an empty list for a name
      seen first, then the set appended to its name's list. */
  lemma ReduceStep(prev: seq<CompletedSet>, s: CompletedSet,
                   keys: seq<string>, acc: map<string, seq<CompletedSet>>,
                   keys': seq<string>, acc': map<string, seq<CompletedSet>>)
    requires Accumulated(prev, keys, acc)
    requires keys' == if s.exerciseName in acc then keys else keys + [s.exerciseName]
    requires acc' == acc[s.exerciseName := (if s.exerciseName in acc then acc[s.exerciseName] else []) + [s]]
    ensures Accumulated(prev + [s], keys', acc')
  {
    var name := s.exerciseName;
    NamesAppend(prev, s);
    DedupAppend(Names(prev), name);
    if name !in acc {
      AbsentName(prev, name);
    }
    AccStep(prev, s, acc, acc');
  }

  /** Every list of the accumulator stays the sets of its name. */
  lemma AccStep(prev: seq<CompletedSet>, s: CompletedSet,
                acc: map<string, seq<CompletedSet>>, acc': map<string, seq<CompletedSet>>)
    requires forall k :: k in acc ==> acc[k] == SetsNamed(prev, k)
    requires s.exerciseName !in acc ==> SetsNamed(prev, s.exerciseName) == []
    requires acc' == acc[s.exerciseName := (if s.exerciseName in acc then acc[s.exerciseName] else []) + [s]]
    ensures forall k :: k in acc' ==> acc'[k] == SetsNamed(prev + [s], k)
  {
    SetsNamedAppend(prev, s);
  }

  /** The `reduce` callback: a key and an empty list for a name seen first,
      then the set appended to its name's list. */
  method AddToGroup(ghost prev: seq<CompletedSet>, s: CompletedSet,
                    keys: seq<string>, acc: map<string, seq<CompletedSet>>)
    returns (keys': seq<string>, acc': map<string, seq<CompletedSet>>)
    requires Accumulated(prev, keys, acc)
    ensures Accumulated(prev + [s], keys', acc')
  {
    keys', acc' := keys, acc;
    if s.exerciseName !in acc' {
      acc' := acc'[s.exerciseName := []];
      keys' := keys' + [s.exerciseName];
    }
    acc' := acc'[s.exerciseName := acc'[s.exerciseName] + [s]];
    ReduceStep(prev, s, keys, acc, keys', acc');
  }

  /** The `reduce`: an accumulator object whose keys keep their insertion
      order (`keys`), filled by the callback set by set. */
  method Reduce(completed: seq<CompletedSet>) returns (keys: seq<string>, acc: map<string, seq<CompletedSet>>)
    ensures Accumulated(completed, keys, acc)
  {
    keys := [];
    acc := map[];
    var i := 0;
    while i < |completed|
      invariant 0 <= i <= |completed|
      invariant Accumulated(completed[..i], keys, acc)
    {
      PrefixStep(completed, i);
      keys, acc := AddToGroup(completed[..i], completed[i], keys, acc);
      i := i + 1;
    }
    assert completed[..i] == completed;
  }

  /** `Object.entries(byExercise)`: the groups of the reduce, in key order. */
  method ByExercise(completed: seq<CompletedSet>) returns (groups: seq<Group>)
    ensures groups == GroupsOf(completed)
  {
    var keys, acc := Reduce(completed);
    groups := seq(|keys|, j requires 0 <= j < |keys| => Group(keys[j], acc[keys[j]]));
  }

  lemma NamesAppend(completed: seq<CompletedSet>, s: CompletedSet)
    ensures Names(completed + [s]) == Names(completed) + [s.exerciseName]
  {
  }

  lemma SetsNamedAppend(completed: seq<CompletedSet>, s: CompletedSet)
    ensures forall name :: (SetsNamed(completed + [s], name)
      == SetsNamed(completed, name) + (if s.exerciseName == name then [s] else []))
  {
    assert (completed + [s])[..|completed|] == completed;
  }

  // ---------------------------------------------------------------------
  // What the grouping promises
  // ---------------------------------------------------------------------

  /** Every completed set lies in the group of its own name, that group is
      the only one with the name, and no group holds a set of another name. */
  lemma EverySetInItsGroup(completed: seq<CompletedSet>)
    ensures var groups := GroupsOf(completed);
      && (forall g, h :: 0 <= g < h < |groups| ==> groups[g].name != groups[h].name)
      && (forall i :: 0 <= i < |completed| ==>
            exists g :: 0 <= g < |groups| && groups[g].name == completed[i].exerciseName
                                          && completed[i] in groups[g].sets)
      && (forall g, k :: 0 <= g < |groups| && 0 <= k < |groups[g].sets| ==>
            groups[g].sets[k].exerciseName == groups[g].name)
  {
    forall i | 0 <= i < |completed| {
      SetInItsGroup(completed, i);
    }
  }

  /** The group of the `i`-th set's name holds that set. */
  lemma SetInItsGroup(completed: seq<CompletedSet>, i: nat)
    requires i < |completed|
    ensures var groups := GroupsOf(completed);
      exists g :: 0 <= g < |groups| && groups[g].name == completed[i].exerciseName
                                    && completed[i] in groups[g].sets
  {
    var groups := GroupsOf(completed);
    var keys := Dedup(Names(completed));
    var name := completed[i].exerciseName;
    assert Names(completed)[i] == name;
    var g :| 0 <= g < |keys| && keys[g] == name;
    var ps := Positions(completed, name);
    SetsNamedInOrder(completed, name);
    var k :| 0 <= k < |ps| && ps[k] == i;
    assert groups[g].sets[k] == completed[i];
  }

  /** Total number of sets over the groups of the given names. */
  function SetsCount(completed: seq<CompletedSet>, keys: seq<string>): nat {
    if |keys| == 0 then 0
    else SetsCount(completed, keys[..|keys| - 1]) + |SetsNamed(completed, keys[|keys| - 1])|
  }

  /** Appending a set adds one to the count of every name list that holds
      its name once, and nothing to one that does not hold it. */
  lemma {:induction false} SetsCountAppend(completed: seq<CompletedSet>, s: CompletedSet, keys: seq<string>)
    requires Distinct(keys)
    ensures SetsCount(completed + [s], keys)
            == SetsCount(completed, keys) + (if s.exerciseName in keys then 1 else 0)
  {
    var c := completed + [s];
    assert c[..|c| - 1] == completed;
    if |keys| > 0 {
      var front := keys[..|keys| - 1];
      var last := keys[|keys| - 1];
      assert keys == front + [last];
      assert Distinct(front);
      assert last !in front;
      SetsCountAppend(completed, s, front);
    }
  }

  /** Nothing is named after a name that no set carries. */
  lemma {:induction false} SetsNamedAbsent(completed: seq<CompletedSet>, name: string)
    requires forall j :: 0 <= j < |completed| ==> completed[j].exerciseName != name
    ensures SetsNamed(completed, name) == []
  {
    if |completed| > 0 {
      SetsNamedAbsent(completed[..|completed| - 1], name);
    }
  }

  /** A name that is not among the distinct names has no sets. */
  lemma AbsentName(completed: seq<CompletedSet>, name: string)
    requires name !in Dedup(Names(completed))
    ensures SetsNamed(completed, name) == []
  {
    forall j | 0 <= j < |completed| ensures completed[j].exerciseName != name {
      assert Names(completed)[j] == completed[j].exerciseName;
    }
    SetsNamedAbsent(completed, name);
  }

  /** Counting over one more name adds that name's sets. */
  lemma SetsCountSnoc(completed: seq<CompletedSet>, keys: seq<string>, name: string)
    ensures SetsCount(completed, keys + [name]) == SetsCount(completed, keys) + |SetsNamed(completed, name)|
  {
    assert (keys + [name])[..|keys|] == keys;
  }

  /** The groups hold as many sets together as were completed: with the
      previous lemma, every set lies in exactly one group. */
  lemma {:induction false} GroupsPartitionSets(completed: seq<CompletedSet>)
    ensures SetsCount(completed, Dedup(Names(completed))) == |completed|
  {
    if |completed| > 0 {
      var front := completed[..|completed| - 1];
      var s := completed[|completed| - 1];
      assert completed == front + [s];
      GroupsPartitionSets(front);
      PartitionStep(front, s, Dedup(Names(front)), Dedup(Names(completed)));
    }
  }

  /** One more set keeps the count of the grouped sets equal to the number
      of sets (`keys` and `keys'` are the distinct names before and after). */
  lemma PartitionStep(front: seq<CompletedSet>, s: CompletedSet, keys: seq<string>, keys': seq<string>)
    requires keys == Dedup(Names(front)) && keys' == Dedup(Names(front + [s]))
    requires SetsCount(front, keys) == |front|
    ensures SetsCount(front + [s], keys') == |front| + 1
  {
    var name := s.exerciseName;
    NamesAppend(front, s);
    DedupAppend(Names(front), name);
    SetsCountAppend(front, s, keys);
    if name !in keys {
      AbsentName(front, name);
      SetsNamedAppend(front, s);
      SetsCountSnoc(front + [s], keys, name);
    }
  }

  /** There are as many groups as distinct exercise names. */
  lemma GroupCount(completed: seq<CompletedSet>)
    ensures |GroupsOf(completed)| == |set i | 0 <= i < |completed| :: completed[i].exerciseName|
  {
    DedupCount(Names(completed));
    assert (set x | x in Names(completed)) == (set i | 0 <= i < |completed| :: completed[i].exerciseName);
  }

  /** Groups are listed in the order in which their names first appear. */
  lemma GroupOrder(completed: seq<CompletedSet>, g: nat, h: nat)
    requires g < h < |GroupsOf(completed)|
    ensures FirstIndexOf(Names(completed), GroupsOf(completed)[g].name)
          < FirstIndexOf(Names(completed), GroupsOf(completed)[h].name)
  {
    DedupFirstAppearance(Names(completed), g, h);
  }

  /** Finish: the result is cleared and the home screen shown. */
  method HandleFinish(store: WorkoutStore)
    requires store.Valid()
    modifies store
    ensures store.Valid()
    ensures store.State() == old(store.State()).(lastResult := None, screen := Home)
  {
    store.ClearLastResult();
    store.SetScreen(Home);
  }
}
