/**
 Generating and assigning tasks (streams/tasks/assigner.go). Every consumer of a group generates
 the tasks itself, from partition metadata in an order of its own and through maps that Go walks
 in an arbitrary order, so the list of tasks has to come out the same everywhere.
 */
module Assigner {

  import opened Basics
  import opened Text

  // A task's mapping: the partitions one sub topology reads at one partition number
  datatype Mapping = Mapping(hash: string, id: nat, sub: string, tps: seq<TopicPartition>)

  // A sub topology at one partition number
  datatype Group = Group(sub: string, partition: nat)

  // The source topics of each sub topology, by the sub topology's name
  type Subs = map<string, set<string>>

  function TopicOf(tp: TopicPartition): string {
    tp.topic
  }

  function Self(s: string): string {
    s
  }

  function HashOf(m: Mapping): string {
    m.hash
  }

  function Topics(tps: seq<TopicPartition>): (topics: seq<string>)
    ensures |topics| == |tps|
  {
    seq(|tps|, i requires 0 <= i < |tps| => tps[i].topic)
  }

  function Joined(topics: seq<string>): string {
    if topics == [] then "" else topics[0] + Joined(topics[1..])
  }

  function Described(topics: seq<string>, partition: nat): string {
    Joined(topics) + "#" + Decimal(partition)
  }

  // Base64 is taken as any encoding that can be read back
  ghost predicate Injective(encode: string -> string) {
    forall a, b :: encode(a) == encode(b) ==> a == b
  }

  // A partition that a group reads
  predicate Feeds(tp: TopicPartition, g: Group, tps: multiset<TopicPartition>, subs: Subs) {
    tp in tps && tp.partition == g.partition && g.sub in subs && tp.topic in subs[g.sub]
  }

  // The partitions of a group in the order of their topics, each as often as it was listed
  ghost predicate Lists(xs: seq<TopicPartition>, g: Group, tps: multiset<TopicPartition>, subs: Subs) {
    && xs != [] && Ordered(xs, TopicOf)
    && (forall tp :: tp in xs <==> Feeds(tp, g, tps, subs))
    && (forall tp :: tp in xs ==> multiset(xs)[tp] == tps[tp])
  }

  // No two sub topologies read topics at one partition number whose names join to the same text
  ghost predicate NoCollision(tps: multiset<TopicPartition>, subs: Subs) {
    forall a: Group, b: Group, xs, ys ::
      (Lists(xs, a, tps, subs) && Lists(ys, b, tps, subs) && a.partition == b.partition
       && Joined(Topics(xs)) == Joined(Topics(ys)))
      ==> a == b
  }

  function GroupOf(m: Mapping): Group {
    Group(m.sub, if m.tps == [] then 0 else m.tps[0].partition)
  }

  ghost predicate MapsGroup(m: Mapping, tps: multiset<TopicPartition>, subs: Subs, encode: string -> string) {
    && m.tps != []
    && Lists(m.tps, GroupOf(m), tps, subs)
    && m.hash == encode(Described(Topics(m.tps), GroupOf(m).partition))
  }

  // A task for every group that reads a partition, one for each
  ghost predicate Covers(ms: seq<Mapping>, tps: multiset<TopicPartition>, subs: Subs) {
    && (forall m :: m in ms ==> m.tps != [])
    && DistinctKeys(ms, GroupOf)
    && (forall tp, g :: Feeds(tp, g, tps, subs) ==> exists m :: m in ms && GroupOf(m) == g)
  }

  ghost predicate Numbered(ms: seq<Mapping>) {
    forall i :: 0 <= i < |ms| ==> ms[i].id == i
  }

  /** What a generation has to be: it depends on which partitions and topics there are, not on any order. */
  ghost predicate Canonical(ms: seq<Mapping>, tps: multiset<TopicPartition>, subs: Subs, encode: string -> string) {
    && (forall m :: m in ms ==> MapsGroup(m, tps, subs, encode))
    && Covers(ms, tps, subs)
    && Ordered(ms, HashOf)
    && Numbered(ms)
  }

  // ---- Canonical means one list ----

  function Bare(ms: seq<Mapping>): (bs: seq<Mapping>)
    ensures |bs| == |ms| && forall i :: 0 <= i < |ms| ==> bs[i] == ms[i].(id := 0)
  {
    seq(|ms|, i requires 0 <= i < |ms| => ms[i].(id := 0))
  }

  /** Sorted listings of a group are equal. */
  lemma ListsUnique(xs: seq<TopicPartition>, ys: seq<TopicPartition>, g: Group, tps: multiset<TopicPartition>,
                    subs: Subs)
    requires Lists(xs, g, tps, subs) && Lists(ys, g, tps, subs)
    ensures xs == ys
  {
    hide Ordered, Feeds;
    assert forall tp :: tp !in xs ==> multiset(xs)[tp] == 0 == multiset(ys)[tp];
    assert forall tp :: tp in xs ==> multiset(xs)[tp] == multiset(ys)[tp];
    assert multiset(xs) == multiset(ys);
    ListsOneTopicEach(xs, g, tps, subs);
    OrderedUnique(xs, ys, TopicOf);
  }

  lemma ListsOneTopicEach(xs: seq<TopicPartition>, g: Group, tps: multiset<TopicPartition>, subs: Subs)
    requires Lists(xs, g, tps, subs)
    ensures forall a, b :: a in xs && b in xs && TopicOf(a) == TopicOf(b) ==> a == b
  {
    hide Ordered;
  }

  // Hashes of different groups are different
  lemma HashesDiffer(m: Mapping, n: Mapping, tps: multiset<TopicPartition>, subs: Subs, encode: string -> string)
    requires MapsGroup(m, tps, subs, encode) && MapsGroup(n, tps, subs, encode)
    requires NoCollision(tps, subs) && Injective(encode) && m.hash == n.hash
    ensures GroupOf(m) == GroupOf(n)
  {
    hide Lists;
    SeparatedInjective(Joined(Topics(m.tps)), GroupOf(m).partition, Joined(Topics(n.tps)), GroupOf(n).partition, '#');
  }

  lemma StrictlySorted(ms: seq<Mapping>, tps: multiset<TopicPartition>, subs: Subs, encode: string -> string)
    requires Canonical(ms, tps, subs, encode) && NoCollision(tps, subs) && Injective(encode)
    ensures Sorted(Bare(ms), HashOf)
  {
    hide Before, MapsGroup, NoCollision, Feeds;
    var bs := Bare(ms);
    forall i, j | 0 <= i < j < |bs| ensures HashOf(bs[i]) != HashOf(bs[j]) {
      if ms[i].hash == ms[j].hash {
        HashesDiffer(ms[i], ms[j], tps, subs, encode);
        assert false;
      }
    }
    assert forall i :: 0 <= i < |bs| ==> HashOf(bs[i]) == HashOf(ms[i]);
    OrderedIsSorted(bs, HashOf);
  }

  lemma SameTask(m: Mapping, n: Mapping, tps: multiset<TopicPartition>, subs: Subs, encode: string -> string)
    requires MapsGroup(m, tps, subs, encode) && MapsGroup(n, tps, subs, encode) && GroupOf(m) == GroupOf(n)
    ensures m.(id := 0) == n.(id := 0)
  {
    ListsUnique(m.tps, n.tps, GroupOf(m), tps, subs);
  }

  lemma TaskInBoth(ms: seq<Mapping>, ns: seq<Mapping>, i: nat, tps: multiset<TopicPartition>, subs: Subs,
                   encode: string -> string)
    requires Canonical(ms, tps, subs, encode) && Canonical(ns, tps, subs, encode) && i < |ms|
    ensures ms[i].(id := 0) in Bare(ns)
  {
    hide Sorted, Ordered, Numbered, Described;
    var m := ms[i];
    assert m in ms && MapsGroup(m, tps, subs, encode);
    assert m.tps[0] in m.tps && Feeds(m.tps[0], GroupOf(m), tps, subs);
    var n :| n in ns && GroupOf(n) == GroupOf(m);
    SameTask(m, n, tps, subs, encode);
    var j :| 0 <= j < |ns| && ns[j] == n;
    assert Bare(ns)[j] == m.(id := 0);
  }

  /** Whatever order the metadata came in and the maps were walked in, all consumers number the same tasks alike. */
  lemma CanonicalUnique(ms: seq<Mapping>, ns: seq<Mapping>, tps: multiset<TopicPartition>, subs: Subs,
                        encode: string -> string)
    requires Canonical(ms, tps, subs, encode) && Canonical(ns, tps, subs, encode)
    requires NoCollision(tps, subs) && Injective(encode)
    ensures ms == ns
  {
    hide Sorted, Ordered, MapsGroup, Covers, NoCollision, Before;
    StrictlySorted(ms, tps, subs, encode);
    StrictlySorted(ns, tps, subs, encode);
    var bs, cs := Bare(ms), Bare(ns);
    forall b ensures b in bs <==> b in cs {
      if b in bs {
        var i :| 0 <= i < |bs| && bs[i] == b;
        TaskInBoth(ms, ns, i, tps, subs, encode);
      }
      if b in cs {
        var i :| 0 <= i < |cs| && cs[i] == b;
        TaskInBoth(ns, ms, i, tps, subs, encode);
      }
    }
    SortedUnique(bs, cs, HashOf);
    forall i | 0 <= i < |ms| ensures ms[i] == ns[i] {
      assert ms[i] == bs[i].(id := i) && ns[i] == cs[i].(id := i);
    }
  }

  // The task of a listed group
  lemma TaskOf(ms: seq<Mapping>, xs: seq<TopicPartition>, g: Group, tps: multiset<TopicPartition>, subs: Subs,
               encode: string -> string) returns (i: nat)
    requires Canonical(ms, tps, subs, encode) && Lists(xs, g, tps, subs)
    ensures i < |ms| && ms[i].tps == xs && xs != [] && GroupOf(ms[i]) == g
    ensures ms[i].hash == encode(Described(Topics(xs), g.partition))
  {
    hide Sorted, Ordered, Numbered, Described;
    assert xs[0] in xs && Feeds(xs[0], g, tps, subs);
    var m :| m in ms && GroupOf(m) == g;
    assert MapsGroup(m, tps, subs, encode);
    ListsUnique(m.tps, xs, g, tps, subs);
    i :| 0 <= i < |ms| && ms[i] == m;
  }

  function Swapped(ms: seq<Mapping>, i: nat): (ns: seq<Mapping>)
    requires i + 1 < |ms|
    ensures |ns| == |ms|
    ensures forall k :: 0 <= k < |ms| ==> ns[k] == ms[Twin(k, i)].(id := if k == i || k == i + 1 then k else ms[k].id)
  {
    ms[i := ms[i + 1].(id := i)][i + 1 := ms[i].(id := i + 1)]
  }

  function Twin(k: int, i: int): int {
    if k == i then i + 1 else if k == i + 1 then i else k
  }

  lemma SwappedKeeps(ms: seq<Mapping>, i: nat, m: Mapping)
    requires i + 1 < |ms| && m in ms
    ensures exists n :: n in Swapped(ms, i) && GroupOf(n) == GroupOf(m)
  {
    var k :| 0 <= k < |ms| && ms[k] == m;
    var n := Swapped(ms, i)[Twin(k, i)];
    assert n in Swapped(ms, i) && GroupOf(n) == GroupOf(m);
  }

  lemma SwappedCovers(ms: seq<Mapping>, i: nat, tps: multiset<TopicPartition>, subs: Subs)
    requires Covers(ms, tps, subs) && i + 1 < |ms|
    ensures Covers(Swapped(ms, i), tps, subs)
  {
    hide Feeds;
    var ns := Swapped(ms, i);
    forall k | 0 <= k < |ms| ensures ns[k].tps != [] && GroupOf(ns[k]) == GroupOf(ms[Twin(k, i)]) {
      assert ms[Twin(k, i)] in ms;
    }
    hide GroupOf, Swapped;
    forall tp, g | Feeds(tp, g, tps, subs) ensures exists n :: n in ns && GroupOf(n) == g {
      var m :| m in ms && GroupOf(m) == g;
      SwappedKeeps(ms, i, m);
    }
  }

  lemma SwappedIsCanonical(ms: seq<Mapping>, i: nat, tps: multiset<TopicPartition>, subs: Subs,
                           encode: string -> string)
    requires Canonical(ms, tps, subs, encode) && i + 1 < |ms| && ms[i].hash == ms[i + 1].hash
    ensures Canonical(Swapped(ms, i), tps, subs, encode) && Swapped(ms, i) != ms
  {
    hide Before, Sorted, Lists, Described, Feeds;
    var ns := Swapped(ms, i);
    forall n | n in ns ensures MapsGroup(n, tps, subs, encode) {
      var k :| 0 <= k < |ns| && ns[k] == n;
      var m := ms[Twin(k, i)];
      assert m in ms && MapsGroup(m, tps, subs, encode) && GroupOf(n) == GroupOf(m);
    }
    SwappedCovers(ms, i, tps, subs);
    assert GroupOf(ms[i]) != GroupOf(ms[i + 1]) by {
      assert ms[i] in ms && ms[i + 1] in ms;
    }
    hide MapsGroup, Covers;
    assert forall k :: 0 <= k < |ms| ==> HashOf(ns[k]) == HashOf(ms[k]);
  }

  lemma CollisionIsAmbiguous(ms: seq<Mapping>, tps: multiset<TopicPartition>, subs: Subs, encode: string -> string)
    requires Canonical(ms, tps, subs, encode) && !NoCollision(tps, subs)
    ensures exists ns :: Canonical(ns, tps, subs, encode) && ns != ms
  {
    hide Before, Lists, Covers, MapsGroup;
    var a: Group, b: Group, xs, ys :|
      Lists(xs, a, tps, subs) && Lists(ys, b, tps, subs) && a.partition == b.partition
      && Joined(Topics(xs)) == Joined(Topics(ys)) && a != b;
    var i := TaskOf(ms, xs, a, tps, subs, encode);
    var j := TaskOf(ms, ys, b, tps, subs, encode);
    var at := if i < j then i else j;
    var to := if i < j then j else i;
    BeforeTotal(ms[at].hash, ms[at + 1].hash);
    assert HashOf(ms[at]) == HashOf(ms[to]);
    SwappedIsCanonical(ms, at, tps, subs, encode);
  }

  /** Consumers are sure to agree on their task list exactly when no two joined topic lists collide. */
  lemma AgreementIffNoCollision(ms: seq<Mapping>, tps: multiset<TopicPartition>, subs: Subs, encode: string -> string)
    requires Canonical(ms, tps, subs, encode) && Injective(encode)
    ensures (forall ns :: Canonical(ns, tps, subs, encode) ==> ns == ms) <==> NoCollision(tps, subs)
  {
    hide Canonical, Lists;
    if NoCollision(tps, subs) {
      forall ns | Canonical(ns, tps, subs, encode) ensures ns == ms {
        CanonicalUnique(ns, ms, tps, subs, encode);
      }
    } else {
      CollisionIsAmbiguous(ms, tps, subs, encode);
    }
  }

  lemma TwoTopicsListed(t: string, u: string, g: Group, tps: multiset<TopicPartition>, subs: Subs)
    requires Before(t, u) && g.sub in subs && subs[g.sub] == {t, u}
    requires tps[TopicPartition(t, g.partition)] == tps[TopicPartition(u, g.partition)] == 1
    ensures Lists([TopicPartition(t, g.partition), TopicPartition(u, g.partition)], g, tps, subs)
  {
    BeforeTotal(t, u);
    hide Before;
    var a, b := TopicPartition(t, g.partition), TopicPartition(u, g.partition);
    var xs := [a, b];
    assert multiset(xs) == multiset{a, b};
    assert TopicOf(xs[0]) == t && TopicOf(xs[1]) == u;
  }

  /** Topic names are joined without a separator, so sub topologies that share no topic may still collide. */
  lemma JoinedNamesCollide(tps: multiset<TopicPartition>, p: nat)
    requires tps[TopicPartition("ab", p)] == tps[TopicPartition("c", p)] == 1
    requires tps[TopicPartition("a", p)] == tps[TopicPartition("bc", p)] == 1
    ensures !NoCollision(tps, map["one" := {"ab", "c"}, "two" := {"a", "bc"}])
  {
    hide Lists, Before;
    FirstCharDecides("ab", "c");
    FirstCharDecides("a", "bc");
    var subs: Subs := map["one" := {"ab", "c"}, "two" := {"a", "bc"}];
    var xs, ys := [TopicPartition("ab", p), TopicPartition("c", p)], [TopicPartition("a", p), TopicPartition("bc", p)];
    TwoTopicsListed("ab", "c", Group("one", p), tps, subs);
    TwoTopicsListed("a", "bc", Group("two", p), tps, subs);
    assert Topics(xs) == ["ab", "c"] && Topics(ys) == ["a", "bc"];
    TwoJoined("ab", "c");
    TwoJoined("a", "bc");
    assert "ab" + "c" == "a" + "bc";
  }

  lemma TwoJoined(t: string, u: string)
    ensures Joined([t, u]) == t + u
  {
    assert [t, u][1..] == [u] && [u][1..] == [];
    assert Joined([u]) == u + Joined([]) == u;
  }

  ghost predicate Disjoint(subs: Subs) {
    forall a, b :: a in subs && b in subs && a != b ==> subs[a] !! subs[b]
  }

  /** Where sub topologies share no topic, each partition they read belongs to exactly one task. */
  lemma ExactlyOneTask(ms: seq<Mapping>, tps: multiset<TopicPartition>, subs: Subs, encode: string -> string,
                       tp: TopicPartition)
    requires Canonical(ms, tps, subs, encode) && Disjoint(subs)
    ensures (tp in tps && exists sub :: sub in subs && tp.topic in subs[sub])
            <==> exists i :: 0 <= i < |ms| && tp in ms[i].tps
    ensures forall i, j :: 0 <= i < j < |ms| ==> tp !in ms[i].tps || tp !in ms[j].tps
  {
    hide Sorted, Ordered, Numbered, Described;
    assert forall i :: 0 <= i < |ms| ==> MapsGroup(ms[i], tps, subs, encode);
    assert forall i :: 0 <= i < |ms| ==>
      (tp in ms[i].tps <==> Feeds(tp, GroupOf(ms[i]), tps, subs));
    if tp in tps && exists sub :: sub in subs && tp.topic in subs[sub] {
      var sub :| sub in subs && tp.topic in subs[sub];
      assert Feeds(tp, Group(sub, tp.partition), tps, subs);
      var m :| m in ms && GroupOf(m) == Group(sub, tp.partition);
      var i :| 0 <= i < |ms| && ms[i] == m;
      assert tp in ms[i].tps;
    }
  }
}
