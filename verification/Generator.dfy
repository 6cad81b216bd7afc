/**
 Generator.Generate, and the generation it returns: Assign and FindMappingByTP
 (streams/tasks/assigner.go). A walk over a Go map is a walk over its keys in an arbitrary order.
 */
module Generator {

  import opened Basics
  import opened Text
  import opened Assigner

  // What is gathered for one sub topology at one partition number
  datatype Grouping = Grouping(hash: string, sub: string, partition: nat, topics: seq<string>)

  // How often a sub topology has been offered a partition
  type Visits = (string, TopicPartition) -> nat

  function Label(sub: string, partition: nat): string {
    sub + "-" + Decimal(partition)
  }

  lemma LabelInjective(a: string, m: nat, b: string, n: nat)
    requires Label(a, m) == Label(b, n)
    ensures a == b && m == n
  {
    SeparatedInjective(a, m, b, n, '-');
  }

  // A grouping holds the topics of its sub topology, each as often as it was visited at its partition number
  ghost predicate Gathers(e: Grouping, visits: Visits, subs: Subs) {
    && e.sub in subs
    && e.topics != []
    && forall t :: multiset(e.topics)[t]
                   == if t in subs[e.sub] then visits(e.sub, TopicPartition(t, e.partition)) else 0
  }

  ghost predicate Grouped(grouped: map<string, Grouping>, visits: Visits, subs: Subs) {
    && (forall k :: k in grouped ==> k == Label(grouped[k].sub, grouped[k].partition))
    && (forall k :: k in grouped ==> Gathers(grouped[k], visits, subs))
    && (forall sub: string, tp: TopicPartition ::
          sub in subs && tp.topic in subs[sub] && visits(sub, tp) > 0 ==> Label(sub, tp.partition) in grouped)
  }

  function Visited(visits: Visits, sub: string, tp: TopicPartition): Visits {
    (s: string, p: TopicPartition) => visits(s, p) + if s == sub && p == tp then 1 else 0
  }

  // Nothing but the numbers of visits counts
  lemma SameVisits(grouped: map<string, Grouping>, a: Visits, b: Visits, subs: Subs)
    requires Grouped(grouped, a, subs) && forall sub, tp :: a(sub, tp) == b(sub, tp)
    ensures Grouped(grouped, b, subs)
  {
    hide Label;
    forall k | k in grouped ensures Gathers(grouped[k], b, subs) {
      assert Gathers(grouped[k], a, subs);
    }
  }

  /** One partition offered to one sub topology: it joins the group of its partition number, or opens it. */
  method Place(grouped: map<string, Grouping>, sub: string, topics: set<string>, tp: TopicPartition,
               ghost visits: Visits, ghost subs: Subs)
    returns (placed: map<string, Grouping>)
    requires Grouped(grouped, visits, subs) && sub in subs && subs[sub] == topics
    ensures Grouped(placed, Visited(visits, sub, tp), subs)
  {
    hide Label, Gathers;
    placed := grouped;
    if tp.topic in topics {
      var k := Label(sub, tp.partition);
      if k !in grouped {
        var e := Grouping("", sub, tp.partition, [tp.topic]);
        placed := grouped[k := e];
        OpensGroup(grouped, e, tp, visits, subs);
      } else {
        var e := grouped[k];
        LabelInjective(e.sub, e.partition, sub, tp.partition);
        placed := grouped[k := e.(topics := e.topics + [tp.topic])];
        JoinsGroup(e, tp, visits, subs);
      }
    }
    OthersKeep(grouped, sub, tp, visits, subs);
  }

  lemma OpensGroup(grouped: map<string, Grouping>, e: Grouping, tp: TopicPartition, visits: Visits, subs: Subs)
    requires Grouped(grouped, visits, subs) && e.topics == [tp.topic] && e.partition == tp.partition
    requires e.sub in subs && tp.topic in subs[e.sub] && Label(e.sub, e.partition) !in grouped
    ensures Gathers(e, Visited(visits, e.sub, tp), subs)
  {
    hide Label;
    forall t | t in subs[e.sub] ensures visits(e.sub, TopicPartition(t, e.partition)) == 0 {
      if visits(e.sub, TopicPartition(t, e.partition)) > 0 {
        assert false;
      }
    }
    assert multiset(e.topics) == multiset{tp.topic};
  }

  lemma JoinsGroup(e: Grouping, tp: TopicPartition, visits: Visits, subs: Subs)
    requires Gathers(e, visits, subs) && tp.topic in subs[e.sub] && e.partition == tp.partition
    ensures Gathers(e.(topics := e.topics + [tp.topic]), Visited(visits, e.sub, tp), subs)
  {
    assert multiset(e.topics + [tp.topic]) == multiset(e.topics) + multiset{tp.topic};
  }

  // A visit does not show in the groups of other sub topologies and partition numbers, nor if the topic
  // is none of the sub topology's
  lemma OthersKeep(grouped: map<string, Grouping>, sub: string, tp: TopicPartition, visits: Visits, subs: Subs)
    requires Grouped(grouped, visits, subs) && sub in subs
    ensures forall k :: k in grouped && (k != Label(sub, tp.partition) || tp.topic !in subs[sub]) ==>
                          Gathers(grouped[k], Visited(visits, sub, tp), subs)
  {
    forall k | k in grouped && (k != Label(sub, tp.partition) || tp.topic !in subs[sub])
      ensures Gathers(grouped[k], Visited(visits, sub, tp), subs)
    {
      assert Gathers(grouped[k], visits, subs);
      hide Label;
      assert grouped[k].sub != sub || grouped[k].partition != tp.partition || tp.topic !in subs[sub];
    }
  }

  // Every sub topology is offered each partition as often as it is listed
  function Offers(tps: multiset<TopicPartition>, subs: Subs): Visits {
    (s: string, p: TopicPartition) => if s in subs then tps[p] else 0
  }

  method GroupPartitions(tps: seq<TopicPartition>, subs: Subs) returns (grouped: map<string, Grouping>)
    ensures Grouped(grouped, Offers(multiset(tps), subs), subs)
  {
    hide Grouped;
    grouped := map[];
    ghost var visits: Visits := (s: string, p: TopicPartition) => 0;
    NothingGrouped(visits, subs);
    for n := 0 to |tps|
      invariant Grouped(grouped, visits, subs)
      invariant forall s, p :: visits(s, p) == if s in subs then multiset(tps[..n])[p] else 0
    {
      var todo := subs.Keys;
      assert tps[..n + 1] == tps[..n] + [tps[n]];
      while todo != {}
        invariant Grouped(grouped, visits, subs) && todo <= subs.Keys
        invariant forall s, p :: visits(s, p) == if s !in subs then 0
                                                 else multiset(tps[..n])[p] + if p == tps[n] && s !in todo then 1 else 0
        decreases |todo|
      {
        var sub :| sub in todo;
        todo := todo - {sub};
        grouped := Place(grouped, sub, subs[sub], tps[n], visits, subs);
        visits := Visited(visits, sub, tps[n]);
      }
    }
    assert tps[..|tps|] == tps;
    SameVisits(grouped, visits, Offers(multiset(tps), subs), subs);
  }

  lemma NothingGrouped(visits: Visits, subs: Subs)
    requires forall s, p :: visits(s, p) == 0
    ensures Grouped(map[], visits, subs)
  {
  }

  // ---- Hashes ----

  ghost predicate Sealed(e: Grouping, encode: string -> string) {
    Ordered(e.topics, Self) && e.hash == encode(Described(e.topics, e.partition))
  }

  method Seal(e: Grouping, encode: string -> string, ghost visits: Visits, ghost subs: Subs) returns (s: Grouping)
    requires Gathers(e, visits, subs)
    ensures Sealed(s, encode) && Gathers(s, visits, subs) && s.sub == e.sub && s.partition == e.partition
  {
    hide Ordered, Described;
    var topics := SortBy(e.topics, Self);
    s := e.(topics := topics, hash := encode(Described(topics, e.partition)));
    assert |multiset(s.topics)| == |s.topics|;
  }

  method HashGroups(grouped: map<string, Grouping>, encode: string -> string, ghost visits: Visits, ghost subs: Subs)
    returns (hashed: map<string, Grouping>)
    requires Grouped(grouped, visits, subs)
    ensures Grouped(hashed, visits, subs) && forall k :: k in hashed ==> Sealed(hashed[k], encode)
  {
    hide Sealed, Label, Gathers;
    hashed := grouped;
    var todo := grouped.Keys;
    while todo != {}
      invariant hashed.Keys == grouped.Keys && todo <= grouped.Keys
      invariant Grouped(hashed, visits, subs)
      invariant forall k :: k in hashed && k !in todo ==> Sealed(hashed[k], encode)
      decreases |todo|
    {
      var k :| k in todo;
      todo := todo - {k};
      var s := Seal(hashed[k], encode, visits, subs);
      hashed := hashed[k := s];
    }
  }

  // ---- Mappings ----

  function PartitionsOf(topics: seq<string>, partition: nat): (tps: seq<TopicPartition>)
    ensures |tps| == |topics| && forall i :: 0 <= i < |tps| ==> tps[i] == TopicPartition(topics[i], partition)
  {
    seq(|topics|, i requires 0 <= i < |topics| => TopicPartition(topics[i], partition))
  }

  ghost predicate Maps(m: Mapping, e: Grouping) {
    m.hash == e.hash && m.sub == e.sub && m.tps == PartitionsOf(e.topics, e.partition)
  }

  lemma {:induction false} PartitionsCount(topics: seq<string>, p: nat, tp: TopicPartition)
    ensures multiset(PartitionsOf(topics, p))[tp] == if tp.partition == p then multiset(topics)[tp.topic] else 0
  {
    if topics != [] {
      var n := |topics| - 1;
      PartitionsCount(topics[..n], p, tp);
      assert topics == topics[..n] + [topics[n]];
      assert PartitionsOf(topics, p) == PartitionsOf(topics[..n], p) + [TopicPartition(topics[n], p)];
    }
  }

  lemma MapsItsGroup(m: Mapping, e: Grouping, tps: multiset<TopicPartition>, subs: Subs, encode: string -> string)
    requires Maps(m, e) && Gathers(e, Offers(tps, subs), subs) && Sealed(e, encode)
    ensures MapsGroup(m, tps, subs, encode) && GroupOf(m) == Group(e.sub, e.partition)
  {
    hide Before, Described;
    var g := Group(e.sub, e.partition);
    assert Topics(m.tps) == e.topics;
    assert m.tps[0].partition == e.partition;
    forall tp
      ensures tp in m.tps <==> Feeds(tp, g, tps, subs)
      ensures tp in m.tps ==> multiset(m.tps)[tp] == tps[tp]
    {
      PartitionsCount(e.topics, e.partition, tp);
      assert tp in m.tps <==> multiset(m.tps)[tp] > 0;
    }
    forall i, j | 0 <= i < j < |m.tps| ensures !Before(TopicOf(m.tps[j]), TopicOf(m.tps[i])) {
      assert TopicOf(m.tps[i]) == Self(e.topics[i]) && TopicOf(m.tps[j]) == Self(e.topics[j]);
    }
  }

  // The labels of the groupings that have been mapped, in the order of the walk
  ghost predicate Mapped(ms: seq<Mapping>, ks: seq<string>, hashed: map<string, Grouping>) {
    && |ms| == |ks|
    && (forall i :: 0 <= i < |ks| ==> ks[i] in hashed && Maps(ms[i], hashed[ks[i]]))
    && (forall i, j :: 0 <= i < j < |ks| ==> ks[i] != ks[j])
  }

  // The walk has met every grouping
  ghost predicate Walked(ms: seq<Mapping>, ks: seq<string>, hashed: map<string, Grouping>) {
    Mapped(ms, ks, hashed) && forall k :: k in hashed ==> k in ks
  }

  /** One mapping for each grouping, in whatever order the walk meets them. */
  method MapGroups(hashed: map<string, Grouping>) returns (ms: seq<Mapping>)
    ensures exists ks :: Walked(ms, ks, hashed)
  {
    ms := [];
    ghost var ks: seq<string> := [];
    var todo := hashed.Keys;
    while todo != {}
      invariant Mapped(ms, ks, hashed) && todo <= hashed.Keys
      invariant forall k :: k in hashed ==> (k in ks <==> k !in todo)
      decreases |todo|
    {
      var k :| k in todo;
      todo := todo - {k};
      var e := hashed[k];
      var tps := [];
      for i := 0 to |e.topics|
        invariant tps == PartitionsOf(e.topics, e.partition)[..i]
      {
        tps := tps + [TopicPartition(e.topics[i], e.partition)];
      }
      ms := ms + [Mapping(e.hash, 0, e.sub, tps)];
      ks := ks + [k];
    }
    assert Walked(ms, ks, hashed);
  }

  // Each mapping stands for the group of its label
  lemma MappingOf(ms: seq<Mapping>, ks: seq<string>, hashed: map<string, Grouping>, tps: multiset<TopicPartition>,
                  subs: Subs, encode: string -> string, i: nat)
    requires Grouped(hashed, Offers(tps, subs), subs) && Mapped(ms, ks, hashed) && i < |ms|
    requires forall k :: k in hashed ==> Sealed(hashed[k], encode)
    ensures MapsGroup(ms[i], tps, subs, encode) && ms[i].tps != []
    ensures ks[i] in hashed && GroupOf(ms[i]) == Group(hashed[ks[i]].sub, hashed[ks[i]].partition)
    ensures ks[i] == Label(GroupOf(ms[i]).sub, GroupOf(ms[i]).partition)
  {
    hide Sealed, Label, Gathers, Maps, GroupOf;
    MapsItsGroup(ms[i], hashed[ks[i]], tps, subs, encode);
    MappingReads(ms[i], tps, subs, encode);
  }

  lemma MappedDistinct(ms: seq<Mapping>, ks: seq<string>, hashed: map<string, Grouping>, tps: multiset<TopicPartition>,
                       subs: Subs, encode: string -> string)
    requires Grouped(hashed, Offers(tps, subs), subs) && Mapped(ms, ks, hashed)
    requires forall k :: k in hashed ==> Sealed(hashed[k], encode)
    ensures DistinctKeys(ms, GroupOf)
  {
    hide Sealed, Label, Grouped, MapsGroup, GroupOf;
    forall i, j | 0 <= i < j < |ms| ensures GroupOf(ms[i]) != GroupOf(ms[j]) {
      MappingOf(ms, ks, hashed, tps, subs, encode, i);
      MappingOf(ms, ks, hashed, tps, subs, encode, j);
    }
  }

  lemma MappedReaches(ms: seq<Mapping>, ks: seq<string>, hashed: map<string, Grouping>, tps: multiset<TopicPartition>,
                      subs: Subs, encode: string -> string, tp: TopicPartition, g: Group)
    requires Grouped(hashed, Offers(tps, subs), subs) && Walked(ms, ks, hashed)
    requires forall k :: k in hashed ==> Sealed(hashed[k], encode)
    requires Feeds(tp, g, tps, subs)
    ensures exists m :: m in ms && GroupOf(m) == g
  {
    hide Sealed, Label, MapsGroup, Gathers, GroupOf, Maps;
    var k := Label(g.sub, g.partition);
    assert Offers(tps, subs)(g.sub, tp) > 0;
    assert k in hashed && k in ks;
    var i :| 0 <= i < |ks| && ks[i] == k;
    MappingOf(ms, ks, hashed, tps, subs, encode, i);
    LabelInjective(hashed[k].sub, hashed[k].partition, g.sub, g.partition);
    assert ms[i] in ms;
  }

  lemma WalkedIsMapped(ms: seq<Mapping>, ks: seq<string>, hashed: map<string, Grouping>)
    requires Walked(ms, ks, hashed)
    ensures Mapped(ms, ks, hashed) && |ks| == |ms|
  {
  }

  lemma MappedCovers(ms: seq<Mapping>, hashed: map<string, Grouping>, tps: multiset<TopicPartition>, subs: Subs,
                     encode: string -> string)
    requires Grouped(hashed, Offers(tps, subs), subs)
    requires forall k :: k in hashed ==> Sealed(hashed[k], encode)
    requires exists ks :: Walked(ms, ks, hashed)
    ensures Covers(ms, tps, subs) && forall m :: m in ms ==> MapsGroup(m, tps, subs, encode)
  {
    hide Sealed, MapsGroup, Label, Grouped, GroupOf, Feeds, DistinctKeys, Walked;
    var ks :| Walked(ms, ks, hashed);
    WalkedIsMapped(ms, ks, hashed);
    hide Mapped;
    MappedDistinct(ms, ks, hashed, tps, subs, encode);
    forall m | m in ms ensures m.tps != [] && MapsGroup(m, tps, subs, encode) {
      var i :| 0 <= i < |ms| && ms[i] == m;
      MappingOf(ms, ks, hashed, tps, subs, encode, i);
    }
    forall tp, g | Feeds(tp, g, tps, subs) ensures exists m :: m in ms && GroupOf(m) == g {
      MappedReaches(ms, ks, hashed, tps, subs, encode, tp, g);
    }
  }

  lemma MappingReads(m: Mapping, tps: multiset<TopicPartition>, subs: Subs, encode: string -> string)
    requires MapsGroup(m, tps, subs, encode)
    ensures m.tps != []
  {
  }

  // ---- The generation ----

  lemma CoversRearranged(ms: seq<Mapping>, ns: seq<Mapping>, tps: multiset<TopicPartition>, subs: Subs,
                         encode: string -> string)
    requires Covers(ms, tps, subs) && multiset(ms) == multiset(ns)
    requires forall m :: m in ms ==> MapsGroup(m, tps, subs, encode)
    ensures Covers(ns, tps, subs) && forall n :: n in ns ==> MapsGroup(n, tps, subs, encode)
  {
    hide MapsGroup, Feeds, GroupOf;
    DistinctRearranged(ms, ns, GroupOf);
    assert forall m :: m in ms <==> m in multiset(ms);
    assert forall m :: m in ns <==> m in multiset(ns);
  }

  lemma NumberedCovers(ms: seq<Mapping>, ns: seq<Mapping>, tps: multiset<TopicPartition>, subs: Subs,
                       encode: string -> string)
    requires Covers(ms, tps, subs) && Ordered(ms, HashOf)
    requires forall m :: m in ms ==> MapsGroup(m, tps, subs, encode)
    requires |ns| == |ms| && forall i :: 0 <= i < |ms| ==> ns[i] == ms[i].(id := i)
    ensures Canonical(ns, tps, subs, encode)
  {
    hide Lists, Feeds, Before, Described;
    forall n | n in ns ensures MapsGroup(n, tps, subs, encode) && n.tps != [] {
      var i :| 0 <= i < |ns| && ns[i] == n;
      assert ms[i] in ms && MapsGroup(ms[i], tps, subs, encode);
    }
    hide MapsGroup;
    assert forall i :: 0 <= i < |ms| ==> GroupOf(ns[i]) == GroupOf(ms[i]) && HashOf(ns[i]) == HashOf(ms[i]);
    forall tp, g | Feeds(tp, g, tps, subs) ensures exists n :: n in ns && GroupOf(n) == g {
      var m :| m in ms && GroupOf(m) == g;
      var i :| 0 <= i < |ms| && ms[i] == m;
      assert ns[i] in ns;
    }
  }

  /** Any order of the partitions and any order of the walks give a canonical generation. */
  method Generate(tps: seq<TopicPartition>, subs: Subs, encode: string -> string) returns (ms: seq<Mapping>)
    ensures Canonical(ms, multiset(tps), subs, encode)
  {
    hide Grouped, Offers, Sealed, Walked, Covers, MapsGroup, Canonical, Ordered;
    ghost var partitions := multiset(tps);
    var grouped := GroupPartitions(tps, subs);
    grouped := HashGroups(grouped, encode, Offers(partitions, subs), subs);
    var unsorted := MapGroups(grouped);
    MappedCovers(unsorted, grouped, partitions, subs, encode);
    var sorted := SortBy(unsorted, HashOf);
    CoversRearranged(unsorted, sorted, partitions, subs, encode);
    ms := sorted;
    for i := 0 to |ms|
      invariant |ms| == |sorted|
      invariant forall k :: 0 <= k < |ms| ==> ms[k] == if k < i then sorted[k].(id := k) else sorted[k]
    {
      ms := ms[i := ms[i].(id := i)];
    }
    NumberedCovers(sorted, ms, partitions, subs, encode);
  }

  /** Two consumers that list the same partitions in different orders hold the same generation. */
  method GenerateTwice(mine: seq<TopicPartition>, theirs: seq<TopicPartition>, subs: Subs, encode: string -> string)
    returns (here: seq<Mapping>, there: seq<Mapping>)
    requires multiset(mine) == multiset(theirs)
    requires NoCollision(multiset(mine), subs) && Injective(encode)
    ensures here == there
  {
    hide Canonical, NoCollision;
    here := Generate(mine, subs, encode);
    there := Generate(theirs, subs, encode);
    CanonicalUnique(here, there, multiset(mine), subs, encode);
  }

  // The keys of a list's groups
  ghost function Labels(ms: seq<Mapping>): (ks: seq<string>)
    ensures |ks| == |ms|
  {
    seq(|ms|, i requires 0 <= i < |ms| => Label(GroupOf(ms[i]).sub, GroupOf(ms[i]).partition))
  }

  lemma SameGrouping(m: Mapping, e: Grouping, tps: multiset<TopicPartition>, subs: Subs, encode: string -> string)
    requires MapsGroup(m, tps, subs, encode) && Gathers(e, Offers(tps, subs), subs) && Sealed(e, encode)
    requires GroupOf(m) == Group(e.sub, e.partition)
    ensures Maps(m.(id := 0), e)
  {
    hide Lists, Gathers, Sealed, Described;
    var n := Mapping(e.hash, 0, e.sub, PartitionsOf(e.topics, e.partition));
    MapsItsGroup(n, e, tps, subs, encode);
    SameTask(m, n, tps, subs, encode);
  }

  /**
   Every canonical list can come out: Go may walk the map of groups in just its order, which is one
   that the sort may leave as it is.
   */
  lemma CanonicalCanComeOut(ms: seq<Mapping>, hashed: map<string, Grouping>, tps: multiset<TopicPartition>, subs: Subs,
                            encode: string -> string)
    requires Canonical(ms, tps, subs, encode) && Grouped(hashed, Offers(tps, subs), subs)
    requires forall k :: k in hashed ==> Sealed(hashed[k], encode)
    ensures Walked(Bare(ms), Labels(ms), hashed) && Ordered(Bare(ms), HashOf)
  {
    hide Label, Sealed, Before, Maps;
    var ks := Labels(ms);
    forall i | 0 <= i < |ms| ensures ks[i] in hashed && Maps(Bare(ms)[i], hashed[ks[i]]) {
      LabelledGroup(ms[i], hashed, tps, subs, encode);
    }
    forall i, j | 0 <= i < j < |ms| ensures ks[i] != ks[j] {
      assert GroupOf(ms[i]) != GroupOf(ms[j]);
      if ks[i] == ks[j] {
        LabelInjective(GroupOf(ms[i]).sub, GroupOf(ms[i]).partition, GroupOf(ms[j]).sub, GroupOf(ms[j]).partition);
      }
    }
    assert forall i :: 0 <= i < |ms| ==> HashOf(Bare(ms)[i]) == HashOf(ms[i]);
    forall k | k in hashed ensures k in ks {
      GroupIsListed(ms, hashed, tps, subs, encode, k);
    }
  }

  lemma LabelledGroup(m: Mapping, hashed: map<string, Grouping>, tps: multiset<TopicPartition>, subs: Subs,
                      encode: string -> string)
    requires MapsGroup(m, tps, subs, encode) && Grouped(hashed, Offers(tps, subs), subs)
    requires forall k :: k in hashed ==> Sealed(hashed[k], encode)
    ensures var k := Label(GroupOf(m).sub, GroupOf(m).partition);
            k in hashed && Maps(m.(id := 0), hashed[k])
  {
    hide Label, Sealed, Ordered, Described;
    var g := GroupOf(m);
    var k := Label(g.sub, g.partition);
    assert m.tps[0] in m.tps && Feeds(m.tps[0], g, tps, subs);
    assert Offers(tps, subs)(g.sub, m.tps[0]) > 0;
    var e := hashed[k];
    LabelInjective(e.sub, e.partition, g.sub, g.partition);
    SameGrouping(m, e, tps, subs, encode);
  }

  lemma GroupIsListed(ms: seq<Mapping>, hashed: map<string, Grouping>, tps: multiset<TopicPartition>, subs: Subs,
                      encode: string -> string, k: string)
    requires Canonical(ms, tps, subs, encode) && Grouped(hashed, Offers(tps, subs), subs) && k in hashed
    ensures k in Labels(ms)
  {
    hide Label, Ordered, Described, Lists, MapsGroup, DistinctKeys;
    var e := hashed[k];
    assert Gathers(e, Offers(tps, subs), subs);
    var t := e.topics[0];
    assert multiset(e.topics)[t] > 0;
    assert Feeds(TopicPartition(t, e.partition), Group(e.sub, e.partition), tps, subs);
    var m :| m in ms && GroupOf(m) == Group(e.sub, e.partition);
    var i :| 0 <= i < |ms| && ms[i] == m;
    assert Labels(ms)[i] == k;
  }

  // ---- Assignment ----

  function Name(tp: TopicPartition): string {
    tp.topic + "-" + Decimal(tp.partition)
  }

  lemma NameInjective(a: TopicPartition, b: TopicPartition)
    requires Name(a) == Name(b)
    ensures a == b
  {
    SeparatedInjective(a.topic, a.partition, b.topic, b.partition, '-');
  }

  lemma NamesInjective()
    ensures forall a, b :: Name(a) == Name(b) ==> a == b
  {
    hide Name;
    forall a, b | Name(a) == Name(b) ensures a == b {
      NameInjective(a, b);
    }
  }

  // Some partition of the task is among those assigned
  ghost predicate Touched(m: Mapping, granted: seq<TopicPartition>) {
    exists tp :: tp in m.tps && tp in granted
  }

  // All partitions of the task are
  ghost predicate Covered(m: Mapping, granted: seq<TopicPartition>) {
    forall tp :: tp in m.tps ==> tp in granted
  }

  ghost predicate Known(ms: seq<Mapping>, tp: TopicPartition) {
    exists m :: m in ms && tp in m.tps
  }

  /** The tasks an assignment gets: no task twice, and exactly the tasks it touches, all of them whole. */
  ghost predicate Assigned(taken: seq<Mapping>, ms: seq<Mapping>, assignment: seq<TopicPartition>) {
    && (forall i, j :: 0 <= i < j < |taken| ==> taken[i] != taken[j])
    && (forall m :: m in taken <==> m in ms && Touched(m, assignment))
    && (forall m :: m in taken ==> Covered(m, assignment))
  }

  /** None stands for the panic of the source: the assignment splits a task. */
  method Assign(ms: seq<Mapping>, assignment: seq<TopicPartition>) returns (r: Option<seq<Mapping>>)
    requires Numbered(ms)
    ensures r.Some? <==> forall m :: m in ms && Touched(m, assignment) ==> Covered(m, assignment)
    ensures r.Some? ==> Assigned(r.value, ms, assignment)
  {
    NamesInjective();
    hide Name, Decimal;
    var taken: seq<Mapping> := [];
    var added: set<nat> := {};
    var names: set<string> := {};
    for n := 0 to |assignment|
      invariant forall tp :: Name(tp) in names <==> tp in assignment[..n]
      invariant forall i, j :: 0 <= i < j < |taken| ==> taken[i] != taken[j]
      invariant forall m :: m in taken <==> m in ms && Touched(m, assignment[..n])
      invariant forall m :: m in ms ==> (m.id in added <==> m in taken)
    {
      var partition := assignment[n];
      names := names + {Name(partition)};
      assert assignment[..n + 1] == assignment[..n] + [partition];
      for a := 0 to |ms|
        invariant forall i, j :: 0 <= i < j < |taken| ==> taken[i] != taken[j]
        invariant forall m :: m in taken
                              <==> m in ms && (Touched(m, assignment[..n]) || (m in ms[..a] && partition in m.tps))
        invariant forall m :: m in ms ==> (m.id in added <==> m in taken)
      {
        var m := ms[a];
        for b := 0 to |m.tps|
          invariant forall i, j :: 0 <= i < j < |taken| ==> taken[i] != taken[j]
          invariant forall k :: k in taken <==>
                      k in ms && (Touched(k, assignment[..n]) || (k in ms[..a] && partition in k.tps)
                                  || (k == m && partition in m.tps[..b]))
          invariant forall k :: k in ms ==> (k.id in added <==> k in taken)
        {
          if m.id !in added && Name(m.tps[b]) == Name(partition) {
            taken := taken + [m];
            added := added + {m.id};
          }
        }
      }
    }
    var whole := AllWhole(taken, names, assignment);
    r := if whole then Some(taken) else None;
  }

  // The check that closes Assign
  method AllWhole(taken: seq<Mapping>, names: set<string>, ghost assignment: seq<TopicPartition>)
    returns (whole: bool)
    requires forall tp :: Name(tp) in names <==> tp in assignment
    ensures whole <==> forall m :: m in taken ==> Covered(m, assignment)
  {
    hide Name;
    for a := 0 to |taken|
      invariant forall k :: 0 <= k < a ==> Covered(taken[k], assignment)
    {
      for b := 0 to |taken[a].tps|
        invariant forall k :: 0 <= k < b ==> taken[a].tps[k] in assignment
      {
        if Name(taken[a].tps[b]) !in names {
          assert taken[a] in taken && taken[a].tps[b] in taken[a].tps;
          return false;
        }
      }
    }
    return true;
  }

  /** The first task that reads a partition; none exactly when no task does. */
  method FindMappingByTP(ms: seq<Mapping>, partition: TopicPartition) returns (r: Option<Mapping>)
    ensures r.None? <==> !Known(ms, partition)
    ensures r.Some? ==> exists i :: 0 <= i < |ms| && ms[i] == r.value && partition in ms[i].tps
                                    && forall j :: 0 <= j < i ==> partition !in ms[j].tps
  {
    NamesInjective();
    hide Name, Decimal;
    for a := 0 to |ms|
      invariant forall j :: 0 <= j < a ==> partition !in ms[j].tps
    {
      for b := 0 to |ms[a].tps|
        invariant partition !in ms[a].tps[..b]
      {
        if Name(ms[a].tps[b]) == Name(partition) {
          return Some(ms[a]);
        }
      }
    }
    return None;
  }

  /** The partitions of the tasks taken are the assigned partitions the generation knows. */
  lemma AssignedPartitions(ms: seq<Mapping>, assignment: seq<TopicPartition>, taken: seq<Mapping>, tp: TopicPartition)
    requires Assigned(taken, ms, assignment)
    ensures (exists m :: m in taken && tp in m.tps) <==> tp in assignment && Known(ms, tp)
  {
    if tp in assignment && Known(ms, tp) {
      var m :| m in ms && tp in m.tps;
      assert Touched(m, assignment);
    }
  }

  /** What a claim finds is a task its consumer was assigned (streams/stream_consumer_instance.go). */
  method Claim(ms: seq<Mapping>, assignment: seq<TopicPartition>, claim: TopicPartition)
    returns (tasks: Option<seq<Mapping>>, mapping: Option<Mapping>)
    requires Numbered(ms) && claim in assignment
    ensures tasks.Some? ==> Assigned(tasks.value, ms, assignment)
    ensures tasks.Some? && Known(ms, claim) ==>
              mapping.Some? && mapping.value in tasks.value && claim in mapping.value.tps
  {
    tasks := Assign(ms, assignment);
    mapping := FindMappingByTP(ms, claim);
    if tasks.Some? && mapping.Some? {
      assert Touched(mapping.value, assignment);
    }
  }

  // The consumers' assignments share the partitions out
  ghost predicate SharesOut(assignments: seq<seq<TopicPartition>>, tps: multiset<TopicPartition>) {
    && (forall tp :: tp in tps ==> exists c :: 0 <= c < |assignments| && tp in assignments[c])
    && (forall c, d, tp :: 0 <= c < d < |assignments| && tp in assignments[c] ==> tp !in assignments[d])
  }

  lemma RunsSomewhere(assignments: seq<seq<TopicPartition>>, taken: seq<seq<Mapping>>, ms: seq<Mapping>, m: Mapping,
                      c: nat)
    requires c < |assignments| == |taken| && Assigned(taken[c], ms, assignments[c])
    requires m in ms && m.tps != [] && m.tps[0] in assignments[c]
    ensures m in taken[c]
  {
    assert Touched(m, assignments[c]);
  }

  lemma RunsNowhereElse(assignments: seq<seq<TopicPartition>>, taken: seq<seq<Mapping>>, ms: seq<Mapping>, m: Mapping,
                        tps: multiset<TopicPartition>, c: nat, d: nat)
    requires c < d < |assignments| == |taken| && SharesOut(assignments, tps) && m.tps != []
    requires Assigned(taken[c], ms, assignments[c]) && Assigned(taken[d], ms, assignments[d])
    ensures m !in taken[c] || m !in taken[d]
  {
    hide Touched;
    assert m in taken[c] ==> m.tps[0] in assignments[c];
    assert m in taken[d] ==> m.tps[0] in assignments[d];
  }

  lemma FirstIsListed(ms: seq<Mapping>, m: Mapping, tps: multiset<TopicPartition>, subs: Subs, encode: string -> string)
    requires Canonical(ms, tps, subs, encode) && m in ms
    ensures m.tps != [] && m.tps[0] in tps
  {
    hide Ordered, Described, Covers, Numbered;
    assert MapsGroup(m, tps, subs, encode);
    assert m.tps[0] in m.tps && Feeds(m.tps[0], GroupOf(m), tps, subs);
  }

  /** When the group's partitions are shared out and no consumer panics, each task runs at exactly one consumer. */
  lemma EachTaskRunsOnce(ms: seq<Mapping>, tps: multiset<TopicPartition>, subs: Subs, encode: string -> string,
                         assignments: seq<seq<TopicPartition>>, taken: seq<seq<Mapping>>, m: Mapping)
    requires Canonical(ms, tps, subs, encode) && SharesOut(assignments, tps)
    requires |taken| == |assignments|
    requires forall c :: 0 <= c < |taken| ==> Assigned(taken[c], ms, assignments[c])
    ensures m in ms <==> exists c :: 0 <= c < |taken| && m in taken[c]
    ensures forall c, d :: 0 <= c < d < |taken| ==> m !in taken[c] || m !in taken[d]
  {
    hide Canonical, Touched, Covered;
    assert forall c :: 0 <= c < |taken| && m in taken[c] ==> m in ms;
    if m in ms {
      FirstIsListed(ms, m, tps, subs, encode);
      var at :| 0 <= at < |assignments| && m.tps[0] in assignments[at];
      RunsSomewhere(assignments, taken, ms, m, at);
      hide Assigned;
      forall c: nat, d: nat | c < d < |taken| ensures m !in taken[c] || m !in taken[d] {
        RunsNowhereElse(assignments, taken, ms, m, tps, c, d);
      }
    }
  }
}
