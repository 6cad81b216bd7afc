/**
 Partition counts of a sub topology: the maximum that its auto created topics and changelogs get
 (streams/ktopology_builder.go, streams/ksource.go, streams/state_stores/changelog_builder.go), the
 co-partitioning check (streams/ksub_topology_builder.go), and what both mean for generated tasks.
 */
module Partitions {

  import opened Basics
  import opened Text
  import opened Assigner

  // nominated: the topic an auto created source is repartitioned as; joinedWith: the source it is to match
  datatype Source = Source(topic: string, auto: bool, nominated: Option<string>, joinedWith: Option<nat>)

  // Partition counts of the topics that exist already
  type Info = map<string, nat>

  predicate Needs(s: Source, topic: string) {
    if s.auto then s.nominated == Some(topic) else s.topic == topic
  }

  // The topics whose metadata setup dereferences were all fetched
  ghost predicate Fetched(sources: seq<Source>, info: Info) {
    forall s, t :: s in sources && Needs(s, t) ==> t in info
  }

  // Counts that bound the maximum: those of existing sources, or only nominated ones when there are none
  ghost predicate Counts(sources: seq<Source>, info: Info, auto: bool, n: nat) {
    exists s, t :: s in sources && s.auto == auto && Needs(s, t) && t in info && info[t] == n
  }

  ghost predicate LargestCount(sources: seq<Source>, info: Info, auto: bool, max: nat) {
    (max == 0 || Counts(sources, info, auto, max)) && forall n: nat :: Counts(sources, info, auto, n) ==> n <= max
  }

  /** What MaxPartitions computes, without its loop. */
  ghost predicate IsMax(sources: seq<Source>, info: Info, max: nat) {
    exists plain: nat, nominated: nat ::
      LargestCount(sources, info, false, plain) && LargestCount(sources, info, true, nominated)
      && max == if plain < 1 then nominated else plain
  }

  lemma CountsSnoc(sources: seq<Source>, s: Source, info: Info, auto: bool, n: nat)
    ensures Counts(sources + [s], info, auto, n) <==>
            Counts(sources, info, auto, n) || Counts([s], info, auto, n)
  {
    if Counts(sources, info, auto, n) {
      var x, t :| x in sources && x.auto == auto && Needs(x, t) && t in info && info[t] == n;
      assert x in sources + [s];
    }
    if Counts([s], info, auto, n) {
      var x, t :| x in [s] && x.auto == auto && Needs(x, t) && t in info && info[t] == n;
      assert x in sources + [s];
    }
  }

  lemma LargestSnoc(sources: seq<Source>, s: Source, info: Info, auto: bool, max: nat, next: nat)
    requires LargestCount(sources, info, auto, max)
    requires forall n: nat :: Counts([s], info, auto, n) ==> n <= next
    requires max <= next && (next == max || Counts([s], info, auto, next))
    ensures LargestCount(sources + [s], info, auto, next)
  {
    hide Counts;
    forall n: nat ensures Counts(sources + [s], info, auto, n) <==>
                          Counts(sources, info, auto, n) || Counts([s], info, auto, n)
    {
      CountsSnoc(sources, s, info, auto, n);
    }
  }

  /** None stands for the nil dereference on a topic whose metadata is missing. */
  method MaxPartitions(sources: seq<Source>, info: Info) returns (r: Option<nat>)
    ensures r.Some? <==> Fetched(sources, info)
    ensures r.Some? ==> IsMax(sources, info, r.value)
  {
    var maxPartitions: nat, autoMaxPartitions: nat := 0, 0;
    for i := 0 to |sources|
      invariant Fetched(sources[..i], info)
      invariant LargestCount(sources[..i], info, false, maxPartitions)
      invariant LargestCount(sources[..i], info, true, autoMaxPartitions)
    {
      var s := sources[i];
      ghost var plain, nominated := maxPartitions, autoMaxPartitions;
      if s.auto {
        if s.nominated.Some? {
          if s.nominated.value !in info {
            assert Needs(s, s.nominated.value);
            return None;
          }
          if info[s.nominated.value] > autoMaxPartitions {
            autoMaxPartitions := info[s.nominated.value];
            assert s in [s] && Needs(s, s.nominated.value);
          }
        }
      } else {
        if s.topic !in info {
          assert Needs(s, s.topic);
          return None;
        }
        if info[s.topic] > maxPartitions {
          maxPartitions := info[s.topic];
          assert s in [s] && Needs(s, s.topic);
        }
      }
      LargestSnoc(sources[..i], s, info, false, plain, maxPartitions);
      LargestSnoc(sources[..i], s, info, true, nominated, autoMaxPartitions);
      assert sources[..i + 1] == sources[..i] + [s];
    }
    assert sources[..|sources|] == sources;
    r := Some(if maxPartitions < 1 then autoMaxPartitions else maxPartitions);
  }

  // The count a source carries after its setup
  function Configured(s: Source, max: nat, info: Info): nat {
    if s.auto then max else if s.topic in info then info[s.topic] else 0
  }

  // The count its topic has once topics were created
  function Created(s: Source, max: nat, info: Info): nat {
    if s.auto && max < 1 && s.nominated.Some? && s.nominated.value in info then info[s.nominated.value]
    else Configured(s, max, info)
  }

  /** No source topic has more partitions than the maximum, and an auto created one has as many. */
  lemma MaxBoundsCreated(sources: seq<Source>, info: Info, max: nat, s: Source)
    requires Fetched(sources, info) && IsMax(sources, info, max) && s in sources
    ensures Created(s, max, info) == Configured(s, max, info) <= max
  {
    var plain: nat, nominated: nat :|
      LargestCount(sources, info, false, plain) && LargestCount(sources, info, true, nominated)
      && max == if plain < 1 then nominated else plain;
    if s.auto {
      if s.nominated.Some? {
        assert Needs(s, s.nominated.value);
        assert Counts(sources, info, true, info[s.nominated.value]);
      }
    } else {
      assert Needs(s, s.topic);
      assert Counts(sources, info, false, info[s.topic]);
    }
  }

  // The source is the last of its topic: the check keeps one source a topic
  ghost predicate LastOfTopic(sources: seq<Source>, i: nat) {
    i < |sources| && forall j :: i < j < |sources| ==> sources[j].topic != sources[i].topic
  }

  predicate Matches(sources: seq<Source>, i: nat, max: nat, info: Info)
    requires i < |sources|
  {
    sources[i].joinedWith.Some? && sources[i].joinedWith.value < |sources| ==>
      Configured(sources[i], max, info) == Configured(sources[sources[i].joinedWith.value], max, info)
  }

  // The check passes: the last source of each topic matches the one it is joined with
  ghost predicate Passes(sources: seq<Source>, max: nat, info: Info) {
    forall i: nat :: LastOfTopic(sources, i) ==> Matches(sources, i, max, info)
  }

  // --- The joins as they are drawn ---

  // One join or merge: the source `marked` is to have as many partitions as `other`
  datatype Mark = Mark(marked: nat, other: nat)

  ghost predicate Draws(sources: seq<Source>, marks: seq<Mark>) {
    forall m | m in marks :: m.marked < |sources| && m.other < |sources|
  }

  // Each mark overwrites the one its source had
  function Marked(sources: seq<Source>, marks: seq<Mark>): (r: seq<Source>)
    requires Draws(sources, marks)
    ensures |r| == |sources|
    ensures forall i :: 0 <= i < |r| ==> r[i] == sources[i].(joinedWith := r[i].joinedWith)
  {
    if marks == [] then sources
    else
      var m := marks[|marks| - 1];
      var before := Marked(sources, marks[..|marks| - 1]);
      before[m.marked := before[m.marked].(joinedWith := Some(m.other))]
  }

  // What every drawn join is for
  ghost predicate AllMatch(sources: seq<Source>, marks: seq<Mark>, max: nat, info: Info)
    requires Draws(sources, marks)
  {
    forall m | m in marks :: Configured(sources[m.marked], max, info) == Configured(sources[m.other], max, info)
  }

  /** The co-partitioning check looks at the last source of each topic, whichever order the map is walked in. */
  method CoPartitioned(sources: seq<Source>, max: nat, info: Info) returns (ok: bool)
    ensures ok <==> Passes(sources, max, info)
  {
    var byTopic: map<string, nat> := map[];
    for n := 0 to |sources|
      invariant forall t :: t in byTopic ==> LastOfTopic(sources[..n], byTopic[t]) && sources[byTopic[t]].topic == t
      invariant forall i :: 0 <= i < n ==> sources[i].topic in byTopic
    {
      byTopic := byTopic[sources[n].topic := n];
    }
    assert sources[..|sources|] == sources;
    assert forall i: nat :: LastOfTopic(sources, i) ==> byTopic[sources[i].topic] == i;
    var todo := byTopic.Keys;
    while todo != {}
      invariant todo <= byTopic.Keys
      invariant forall t :: t in byTopic && t !in todo ==> Matches(sources, byTopic[t], max, info)
      decreases |todo|
    {
      var t :| t in todo;
      todo := todo - {t};
      if !Matches(sources, byTopic[t], max, info) {
        return false;
      }
    }
    return true;
  }

  // ---- What the check lets through ----

  // Sources of one class have one count: the auto created ones, and those of one topic
  datatype Class = Auto | Plain(topic: string)

  function ClassOf(s: Source): Class {
    if s.auto then Auto else Plain(s.topic)
  }

  function CountOf(c: Class, max: nat, info: Info): nat {
    if c.Auto? then max else if c.topic in info then info[c.topic] else 0
  }

  ghost predicate Joins(sources: seq<Source>, i: nat, a: Class, b: Class) {
    && i < |sources| && sources[i].joinedWith.Some? && sources[i].joinedWith.value < |sources|
    && a == ClassOf(sources[i]) && b == ClassOf(sources[sources[i].joinedWith.value])
  }

  // Some join that is checked binds the two counts together
  ghost predicate Bound(sources: seq<Source>, a: Class, b: Class) {
    exists i: nat :: LastOfTopic(sources, i) && (Joins(sources, i, a, b) || Joins(sources, i, b, a))
  }

  ghost predicate Chain(sources: seq<Source>, path: seq<Class>) {
    forall k :: 0 <= k < |path| - 1 ==> Bound(sources, path[k], path[k + 1])
  }

  // A chain of checked joins leads from one class to the other
  ghost predicate Linked(sources: seq<Source>, a: Class, b: Class) {
    exists path :: path != [] && path[0] == a && path[|path| - 1] == b && Chain(sources, path)
  }

  lemma {:induction false} ChainCounts(sources: seq<Source>, path: seq<Class>, max: nat, info: Info)
    requires path != [] && Chain(sources, path) && Passes(sources, max, info)
    ensures CountOf(path[0], max, info) == CountOf(path[|path| - 1], max, info)
  {
    if |path| > 1 {
      ChainCounts(sources, path[1..], max, info);
      assert Bound(sources, path[0], path[1]);
      var i: nat :|
        LastOfTopic(sources, i) && (Joins(sources, i, path[0], path[1]) || Joins(sources, i, path[1], path[0]));
      assert Matches(sources, i, max, info);
    }
  }

  lemma LinkedStep(sources: seq<Source>, a: Class, b: Class, c: Class)
    requires Linked(sources, a, b) && Bound(sources, b, c)
    ensures Linked(sources, a, c)
  {
    var path :| path != [] && path[0] == a && path[|path| - 1] == b && Chain(sources, path);
    assert Chain(sources, path + [c]);
  }

  lemma LinkedBack(sources: seq<Source>, a: Class, b: Class)
    requires Linked(sources, a, b)
    ensures Linked(sources, b, a)
  {
    var path :| path != [] && path[0] == a && path[|path| - 1] == b && Chain(sources, path);
    var n := |path|;
    var back := seq(n, k requires 0 <= k < n => path[n - 1 - k]);
    forall k | 0 <= k < n - 1 ensures Bound(sources, back[k], back[k + 1]) {
      assert Bound(sources, path[n - 2 - k], path[n - 1 - k]);
    }
    assert Chain(sources, back);
  }

  // What setup finds: counts of existing topics, none of them auto created, and the maximum it computes from them
  ghost predicate Found(sources: seq<Source>, max: nat, info: Info) {
    && Fetched(sources, info) && IsMax(sources, info, max)
    && (forall t | t in info :: info[t] > 0)
    && (forall s | s in sources && s.auto :: s.topic !in info)
  }

  // The topics whose counts setup needs
  function Needed(sources: seq<Source>): set<string> {
    (set s | s in sources && !s.auto :: s.topic)
    + (set s | s in sources && s.auto && s.nominated.Some? :: s.nominated.value)
  }

  // Setup can find them: it dereferences nil for a topic that is itself auto created
  ghost predicate Findable(sources: seq<Source>) {
    forall s | s in sources && s.auto :: s.topic !in Needed(sources)
  }

  lemma FoundIsFindable(sources: seq<Source>, max: nat, info: Info)
    requires Found(sources, max, info)
    ensures Findable(sources)
  {
    forall t | t in Needed(sources) ensures t in info {
      if s :| s in sources && !s.auto && s.topic == t {
        assert Needs(s, t);
      } else {
        var s :| s in sources && s.auto && s.nominated == Some(t);
        assert Needs(s, t);
      }
    }
  }

  // One class holds all counts of existing sources together
  ghost predicate AllPlainLinked(sources: seq<Source>, a: Class) {
    forall s | s in sources && !s.auto :: Linked(sources, a, Plain(s.topic))
  }

  /**
   The two sources of a join are linked by joins that are checked, or one of them is auto created and all
   existing sources are linked with the other, so that it gets the count that they all have.
   */
  ghost predicate Implied(sources: seq<Source>, a: Class, b: Class) {
    || Linked(sources, a, b)
    || (a.Auto? && b.Plain? && AllPlainLinked(sources, b))
    || (b.Auto? && a.Plain? && AllPlainLinked(sources, a))
  }

  // A class of sources that exist
  ghost predicate Exists(sources: seq<Source>, a: Class) {
    a.Plain? && exists s :: s in sources && !s.auto && s.topic == a.topic
  }

  lemma PlainCounts(sources: seq<Source>, info: Info, s: Source)
    requires s in sources && !s.auto && Fetched(sources, info)
    ensures s.topic in info && Counts(sources, info, false, info[s.topic])
  {
    assert Needs(s, s.topic);
  }

  // Where all existing sources have one count, that is the maximum
  lemma AllPlainMeansMax(sources: seq<Source>, a: Class, max: nat, info: Info)
    requires Found(sources, max, info) && Passes(sources, max, info)
    requires Exists(sources, a) && AllPlainLinked(sources, a)
    ensures CountOf(a, max, info) == max
  {
    var n := CountOf(a, max, info);
    forall s | s in sources && !s.auto ensures s.topic in info && info[s.topic] == n {
      var path :| path != [] && path[0] == a && path[|path| - 1] == Plain(s.topic) && Chain(sources, path);
      ChainCounts(sources, path, max, info);
      PlainCounts(sources, info, s);
    }
    var s :| s in sources && !s.auto && s.topic == a.topic;
    PlainCounts(sources, info, s);
    assert forall k: nat :: Counts(sources, info, false, k) ==> k == n;
  }

  lemma ImpliedMatches(sources: seq<Source>, a: Class, b: Class, max: nat, info: Info)
    requires Found(sources, max, info) && Passes(sources, max, info) && Implied(sources, a, b)
    requires (a.Auto? || Exists(sources, a)) && (b.Auto? || Exists(sources, b))
    ensures CountOf(a, max, info) == CountOf(b, max, info)
  {
    hide Found, Passes, AllPlainLinked, Exists, Bound;
    if Linked(sources, a, b) {
      var path :| path != [] && path[0] == a && path[|path| - 1] == b && Chain(sources, path);
      ChainCounts(sources, path, max, info);
    } else if a.Auto? {
      AllPlainMeansMax(sources, b, max, info);
    } else {
      AllPlainMeansMax(sources, a, max, info);
    }
  }

  // --- Counts that tell what is linked to a class from what is not ---

  ghost function Telling(sources: seq<Source>, c: Class, inside: nat, outside: nat): Info {
    map t | t in Needed(sources) :: if Linked(sources, c, Plain(t)) then inside else outside
  }

  lemma TellingPasses(sources: seq<Source>, c: Class, inside: nat, outside: nat, max: nat)
    requires max == if Linked(sources, c, Auto) then inside else outside
    ensures Passes(sources, max, Telling(sources, c, inside, outside))
  {
    var info := Telling(sources, c, inside, outside);
    forall i: nat | LastOfTopic(sources, i) ensures Matches(sources, i, max, info) {
      if sources[i].joinedWith.Some? && sources[i].joinedWith.value < |sources| {
        var s, t := sources[i], sources[sources[i].joinedWith.value];
        assert Joins(sources, i, ClassOf(s), ClassOf(t));
        assert Bound(sources, ClassOf(s), ClassOf(t)) && Bound(sources, ClassOf(t), ClassOf(s));
        if Linked(sources, c, ClassOf(s)) {
          LinkedStep(sources, c, ClassOf(s), ClassOf(t));
        }
        if Linked(sources, c, ClassOf(t)) {
          LinkedStep(sources, c, ClassOf(t), ClassOf(s));
        }
      }
    }
  }

  lemma {:induction false} LargestExists(sources: seq<Source>, info: Info, auto: bool) returns (n: nat)
    ensures LargestCount(sources, info, auto, n)
  {
    if sources == [] {
      n := 0;
    } else {
      var front, s := sources[..|sources| - 1], sources[|sources| - 1];
      assert sources == front + [s];
      var before := LargestExists(front, info, auto);
      n := before;
      var t := if s.auto then s.nominated else Some(s.topic);
      if s.auto == auto && t.Some? && t.value in info && info[t.value] > before {
        n := info[t.value];
        assert s in [s] && Needs(s, t.value);
      }
      LargestSnoc(front, s, info, auto, before, n);
    }
  }

  // Setup finds such counts, if an existing source has the larger of the two
  lemma TellingIsFound(sources: seq<Source>, c: Class, inside: nat, outside: nat, max: nat, s: Source)
    requires Findable(sources) && s in sources && !s.auto && 0 < inside <= max && 0 < outside <= max
    requires Telling(sources, c, inside, outside)[s.topic] == max
    ensures Found(sources, max, Telling(sources, c, inside, outside))
  {
    hide Linked;
    var info := Telling(sources, c, inside, outside);
    assert Needs(s, s.topic);
    assert Counts(sources, info, false, max);
    assert LargestCount(sources, info, false, max);
    var nominated := LargestExists(sources, info, true);
  }

  // A join that is not implied: counts that setup finds, that pass, and that tell its sources apart
  lemma NotImpliedMismatches(sources: seq<Source>, a: Class, b: Class) returns (max: nat, info: Info)
    requires Findable(sources) && !Implied(sources, a, b)
    requires (a.Auto? || Exists(sources, a)) && (b.Auto? || Exists(sources, b))
    ensures Found(sources, max, info) && Passes(sources, max, info) && CountOf(a, max, info) != CountOf(b, max, info)
  {
    assert Chain(sources, [a]) && [a][0] == a && Chain(sources, [b]) && [b][0] == b;
    assert Linked(sources, a, a) && Linked(sources, b, b);
    if Linked(sources, b, a) {
      LinkedBack(sources, b, a);
    }
    hide Linked, Found, Passes, AllPlainLinked;
    max := 3;
    if a.Plain? && Linked(sources, a, Auto) {
      info := Telling(sources, a, 3, 2);
      var s :| s in sources && !s.auto && s.topic == a.topic;
      TellingPasses(sources, a, 3, 2, 3);
      TellingIsFound(sources, a, 3, 2, 3, s);
    } else {
      var c := if a.Plain? then a else b;
      info := Telling(sources, c, 2, 3);
      var s := PlainOutside(sources, a, b, c);
      TellingPasses(sources, c, 2, 3, 3);
      TellingIsFound(sources, c, 2, 3, 3, s);
    }
  }

  lemma PlainOutside(sources: seq<Source>, a: Class, b: Class, c: Class) returns (s: Source)
    requires (a.Auto? || Exists(sources, a)) && (b.Auto? || Exists(sources, b)) && !Implied(sources, a, b)
    requires Linked(sources, a, a) && c == if a.Plain? then a else b
    ensures s in sources && !s.auto && !Linked(sources, c, Plain(s.topic))
  {
    hide Linked;
    if a.Plain? && b.Plain? {
      s :| s in sources && !s.auto && s.topic == b.topic;
    } else {
      s :| s in sources && !s.auto && !Linked(sources, c, Plain(s.topic));
    }
  }

  lemma ClassIsThere(sources: seq<Source>, i: nat, max: nat, info: Info)
    requires i < |sources|
    ensures ClassOf(sources[i]).Auto? || Exists(sources, ClassOf(sources[i]))
    ensures Configured(sources[i], max, info) == CountOf(ClassOf(sources[i]), max, info)
  {
    assert sources[i] in sources;
  }

  /**
   For all counts that setup finds, passing means that all joins drawn match, if and only if each join that
   is not checked, as a later mark overwrote it or a later source of its topic shadows it, is implied by
   those that are; or else setup can find no counts at all.
   */
  lemma PassingMeansMatchingIffImplied(bare: seq<Source>, marks: seq<Mark>)
    requires Draws(bare, marks)
    ensures var sources := Marked(bare, marks);
            (forall max: nat, info: Info ::
               Found(sources, max, info) && Passes(sources, max, info) ==> AllMatch(sources, marks, max, info)) <==>
            (Findable(sources) ==>
               forall m | m in marks :: Implied(sources, ClassOf(sources[m.marked]), ClassOf(sources[m.other])))
  {
    hide Found, Passes, Implied, Exists, Configured, Marked, Findable;
    var sources := Marked(bare, marks);
    if !Findable(sources) {
      forall max: nat, info: Info | Found(sources, max, info) ensures false {
        FoundIsFindable(sources, max, info);
      }
    } else if forall m | m in marks :: Implied(sources, ClassOf(sources[m.marked]), ClassOf(sources[m.other])) {
      forall max: nat, info: Info, m | Found(sources, max, info) && Passes(sources, max, info) && m in marks
        ensures Configured(sources[m.marked], max, info) == Configured(sources[m.other], max, info)
      {
        ClassIsThere(sources, m.marked, max, info);
        ClassIsThere(sources, m.other, max, info);
        ImpliedMatches(sources, ClassOf(sources[m.marked]), ClassOf(sources[m.other]), max, info);
      }
    } else {
      var m :| m in marks && !Implied(sources, ClassOf(sources[m.marked]), ClassOf(sources[m.other]));
      ClassIsThere(sources, m.marked, 0, map[]);
      ClassIsThere(sources, m.other, 0, map[]);
      var max, info := NotImpliedMismatches(sources, ClassOf(sources[m.marked]), ClassOf(sources[m.other]));
      ClassIsThere(sources, m.marked, max, info);
      ClassIsThere(sources, m.other, max, info);
    }
  }

  /** Two streams joined with one table: the first join is forgotten, and may mismatch with counts that setup finds. */
  lemma OverwrittenJoinIsSkipped()
    ensures var marks := [Mark(1, 0), Mark(1, 2)];
            var bare := [Source("s1", false, None, None), Source("t", false, None, None),
                         Source("s2", false, None, None)];
            var info: Info := map["s1" := 3, "t" := 2, "s2" := 2];
            && Draws(bare, marks) && Found(Marked(bare, marks), 3, info)
            && Passes(Marked(bare, marks), 3, info) && !AllMatch(Marked(bare, marks), marks, 3, info)
  {
    var marks := [Mark(1, 0), Mark(1, 2)];
    var bare := [Source("s1", false, None, None), Source("t", false, None, None), Source("s2", false, None, None)];
    var info: Info := map["s1" := 3, "t" := 2, "s2" := 2];
    assert marks[..1] == [marks[0]] && [marks[0]][..0] == [];
    assert Marked(bare, [marks[0]]) == bare[1 := bare[1].(joinedWith := Some(0))];
    var sources := Marked(bare, marks);
    assert sources == bare[1 := bare[1].(joinedWith := Some(2))];
    assert sources[0] in sources && Needs(sources[0], "s1") && Counts(sources, info, false, 3);
    assert LargestCount(sources, info, false, 3) && LargestCount(sources, info, true, 0);
    assert marks[0] in marks && Configured(sources[1], 3, info) != Configured(sources[0], 3, info);
  }

  /** A source that a later one of its topic shadows may mismatch unnoticed, with counts that setup finds. */
  lemma ShadowedJoinIsSkipped()
    ensures var marks := [Mark(0, 1)];
            var bare := [Source("a", false, None, None), Source("b", false, None, None),
                         Source("a", false, None, None)];
            var info: Info := map["a" := 2, "b" := 3];
            && Draws(bare, marks) && Found(Marked(bare, marks), 3, info)
            && Passes(Marked(bare, marks), 3, info) && !AllMatch(Marked(bare, marks), marks, 3, info)
  {
    var marks := [Mark(0, 1)];
    var bare := [Source("a", false, None, None), Source("b", false, None, None), Source("a", false, None, None)];
    var info: Info := map["a" := 2, "b" := 3];
    assert marks[..0] == [];
    var sources := Marked(bare, marks);
    assert sources == bare[0 := bare[0].(joinedWith := Some(1))];
    assert sources[1] in sources && Needs(sources[1], "b") && Counts(sources, info, false, 3);
    assert LargestCount(sources, info, false, 3) && LargestCount(sources, info, true, 0);
    assert sources[2].topic == sources[0].topic && !LastOfTopic(sources, 0);
    assert marks[0] in marks && Configured(sources[0], 3, info) != Configured(sources[1], 3, info);
  }

  // ---- What this means for tasks ----

  // The metadata lists the partitions of each source topic, numbered from zero
  ghost predicate Announces(tps: multiset<TopicPartition>, sources: seq<Source>, max: nat, info: Info) {
    forall s, p: nat :: s in sources ==> (TopicPartition(s.topic, p) in tps <==> p < Created(s, max, info))
  }

  ghost predicate ReadsSources(topics: set<string>, sources: seq<Source>) {
    forall t :: t in topics <==> exists s :: s in sources && s.topic == t
  }

  /** The changelog, created with the maximum count, has the partition of every task of its sub topology. */
  lemma ChangelogPartitionExists(ms: seq<Mapping>, m: Mapping, tps: multiset<TopicPartition>, subs: Subs,
                                 encode: string -> string, sources: seq<Source>, info: Info, max: nat)
    requires Canonical(ms, tps, subs, encode) && m in ms && m.sub in subs
    requires ReadsSources(subs[m.sub], sources) && Announces(tps, sources, max, info)
    requires Fetched(sources, info) && IsMax(sources, info, max)
    ensures GroupOf(m).partition < max
  {
    hide Sorted, Ordered, Described, IsMax, Fetched;
    assert MapsGroup(m, tps, subs, encode);
    var tp := m.tps[0];
    assert Feeds(tp, GroupOf(m), tps, subs);
    var s :| s in sources && s.topic == tp.topic;
    MaxBoundsCreated(sources, info, max, s);
  }

  /** A task that reads a partition of a source reads the same partition of the source it is joined with. */
  lemma JoinedPartitionsMeet(ms: seq<Mapping>, m: Mapping, tps: multiset<TopicPartition>, subs: Subs,
                             encode: string -> string, sources: seq<Source>, info: Info, max: nat, i: nat, p: nat)
    requires Canonical(ms, tps, subs, encode) && m in ms && m.sub in subs
    requires ReadsSources(subs[m.sub], sources) && Announces(tps, sources, max, info)
    requires Fetched(sources, info) && IsMax(sources, info, max)
    requires LastOfTopic(sources, i) && Matches(sources, i, max, info)
    requires sources[i].joinedWith.Some? && sources[i].joinedWith.value < |sources|
    ensures TopicPartition(sources[i].topic, p) in m.tps
            <==> TopicPartition(sources[sources[i].joinedWith.value].topic, p) in m.tps
  {
    hide Sorted, Ordered, Described, IsMax, Fetched, Created, Configured;
    var a, b := sources[i], sources[sources[i].joinedWith.value];
    MaxBoundsCreated(sources, info, max, a);
    MaxBoundsCreated(sources, info, max, b);
    assert MapsGroup(m, tps, subs, encode);
    forall s | s in {a, b}
      ensures TopicPartition(s.topic, p) in m.tps <==> p == GroupOf(m).partition && p < Created(s, max, info)
    {
      assert s in sources && s.topic in subs[m.sub];
      assert TopicPartition(s.topic, p) in m.tps <==> Feeds(TopicPartition(s.topic, p), GroupOf(m), tps, subs);
    }
  }
}
