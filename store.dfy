/**
 * The session store of App.tsx on values: a `SpinSession` per spin id, the key-scoped track
 * merge of `updateTrackInSpin`, the track stubs built from an outline, the initial store built
 * from the seed topics, and the newest-first order of `sortedSpins`.
 */
module Store {
  import opened Wrappers
  import opened Text
  import opened Types
  import Gemini

  /** `SpinSession`: the topic, its ordered tracks (generation order = playback order), a timestamp. */
  datatype Session = Session(topic: Topic, tracks: seq<Audiocast>, createdAt: int)

  /** The keys of a `Partial<Audiocast>` that the handlers pass; `None` means the key is absent. */
  datatype TrackPatch = TrackPatch(status: Option<TrackStatus>, imageUrl: Option<string>, audioUrl: Option<string>)

  function StatusPatch(s: TrackStatus): TrackPatch {
    TrackPatch(Some(s), None, None)
  }

  function ImagePatch(url: string): TrackPatch {
    TrackPatch(None, Some(url), None)
  }

  function ReadyPatch(audioUrl: string): TrackPatch {
    TrackPatch(Some(Ready), None, Some(audioUrl))
  }

  /** Two patches that set no key in common. */
  predicate Disjoint(p: TrackPatch, q: TrackPatch) {
    && (p.status.None? || q.status.None?)
    && (p.imageUrl.None? || q.imageUrl.None?)
    && (p.audioUrl.None? || q.audioUrl.None?)
  }

  /** `{ ...t, ...updates }`: a key present in the patch wins, every other field is kept. */
  function Merge(t: Audiocast, p: TrackPatch): (r: Audiocast)
    ensures r.id == t.id && r.topicId == t.topicId && r.title == t.title && r.description == t.description
    ensures r.status == (if p.status.Some? then p.status.value else t.status)
    ensures r.imageUrl == (if p.imageUrl.Some? then p.imageUrl.value else t.imageUrl)
    ensures r.audioUrl == (if p.audioUrl.Some? then p.audioUrl.value else t.audioUrl)
  {
    t.(status := if p.status.Some? then p.status.value else t.status,
       imageUrl := if p.imageUrl.Some? then p.imageUrl.value else t.imageUrl,
       audioUrl := if p.audioUrl.Some? then p.audioUrl.value else t.audioUrl)
  }

  /** Merging the same patch twice is merging it once. */
  lemma MergeIdempotent(t: Audiocast, p: TrackPatch)
    ensures Merge(Merge(t, p), p) == Merge(t, p)
  {
  }

  /** Patches that touch different keys can be merged in either order. */
  lemma MergeCommutes(t: Audiocast, p: TrackPatch, q: TrackPatch)
    requires Disjoint(p, q)
    ensures Merge(Merge(t, p), q) == Merge(Merge(t, q), p)
  {
  }

  function Ids(ts: seq<Audiocast>): (r: seq<string>)
    ensures |r| == |ts| && forall i :: 0 <= i < |ts| ==> r[i] == ts[i].id
  {
    seq(|ts|, i requires 0 <= i < |ts| => ts[i].id)
  }

  predicate DistinctIds(ts: seq<Audiocast>) {
    forall i, j :: 0 <= i < j < |ts| ==> ts[i].id != ts[j].id
  }

  /** Distinctness depends on the ids alone. */
  lemma SameIdsDistinct(a: seq<Audiocast>, b: seq<Audiocast>)
    requires Ids(a) == Ids(b) && DistinctIds(a)
    ensures DistinctIds(b)
  {
    forall i, j | 0 <= i < j < |b| ensures b[i].id != b[j].id {
      assert Ids(a)[i] == Ids(b)[i] && Ids(a)[j] == Ids(b)[j];
    }
  }

  /** The track list after merging a patch into every track with the given id; the others are kept as they are. */
  function UpdateTracks(ts: seq<Audiocast>, trackId: string, p: TrackPatch): (r: seq<Audiocast>)
    ensures |r| == |ts| && Ids(r) == Ids(ts)
    ensures forall i :: 0 <= i < |ts| && ts[i].id != trackId ==> r[i] == ts[i]
    ensures forall i :: 0 <= i < |ts| && ts[i].id == trackId ==> r[i] == Merge(ts[i], p)
  {
    seq(|ts|, i requires 0 <= i < |ts| => if ts[i].id == trackId then Merge(ts[i], p) else ts[i])
  }

  /** The updater of `updateTrackInSpin`: an absent session leaves the store as it is;
      otherwise only that session's track list changes. */
  function UpdateTrackInSpin(spins: map<string, Session>, spinId: string, trackId: string, p: TrackPatch)
    : (r: map<string, Session>)
    ensures spinId !in spins ==> r == spins
    ensures r.Keys == spins.Keys
    ensures forall k :: k in spins && k != spinId ==> r[k] == spins[k]
    ensures spinId in spins ==>
      && r[spinId].topic == spins[spinId].topic
      && r[spinId].createdAt == spins[spinId].createdAt
      && r[spinId].tracks == UpdateTracks(spins[spinId].tracks, trackId, p)
  {
    if spinId !in spins then spins
    else
      var session := spins[spinId];
      spins[spinId := session.(tracks := UpdateTracks(session.tracks, trackId, p))]
  }

  /** Applying an update twice is applying it once. */
  lemma UpdateIdempotent(spins: map<string, Session>, spinId: string, trackId: string, p: TrackPatch)
    ensures UpdateTrackInSpin(UpdateTrackInSpin(spins, spinId, trackId, p), spinId, trackId, p)
         == UpdateTrackInSpin(spins, spinId, trackId, p)
  {
    if spinId in spins {
      var once := UpdateTrackInSpin(spins, spinId, trackId, p);
      var twice := UpdateTrackInSpin(once, spinId, trackId, p);
      var ts := spins[spinId].tracks;
      forall i | 0 <= i < |ts| ensures twice[spinId].tracks[i] == once[spinId].tracks[i] {
        if ts[i].id == trackId {
          MergeIdempotent(ts[i], p);
        }
      }
      assert twice[spinId].tracks == once[spinId].tracks;
    }
  }

  /** Racing updates (an image callback against a status change, two different tracks or spins)
      give the same store whichever lands first, as long as they do not set the same key of the same track. */
  lemma UpdatesCommute(spins: map<string, Session>,
                       s1: string, t1: string, p1: TrackPatch,
                       s2: string, t2: string, p2: TrackPatch)
    requires s1 != s2 || t1 != t2 || Disjoint(p1, p2)
    ensures UpdateTrackInSpin(UpdateTrackInSpin(spins, s1, t1, p1), s2, t2, p2)
         == UpdateTrackInSpin(UpdateTrackInSpin(spins, s2, t2, p2), s1, t1, p1)
  {
    var a := UpdateTrackInSpin(UpdateTrackInSpin(spins, s1, t1, p1), s2, t2, p2);
    var b := UpdateTrackInSpin(UpdateTrackInSpin(spins, s2, t2, p2), s1, t1, p1);
    if s1 == s2 && s1 in spins {
      var ts := spins[s1].tracks;
      forall i | 0 <= i < |ts| ensures a[s1].tracks[i] == b[s1].tracks[i] {
        if ts[i].id == t1 && ts[i].id == t2 {
          MergeCommutes(ts[i], p1, p2);
        }
      }
      assert a[s1].tracks == b[s1].tracks;
    }
  }

  /** `track-${spinId}-${idx}` */
  function TrackId(spinId: string, idx: nat): (r: string)
    ensures StartsWith(r, "track-" + spinId + "-") && |r| > |spinId| + 7
  {
    "track-" + spinId + "-" + Decimal(idx)
  }

  /** Within one spin, different positions give different track ids. */
  lemma TrackIdInjective(spinId: string, i: nat, j: nat)
    requires TrackId(spinId, i) == TrackId(spinId, j)
    ensures i == j
  {
    PrefixCancel("track-" + spinId + "-", Decimal(i), Decimal(j));
    DecimalInjective(i, j);
  }

  /** One pending stub per planned track, in outline order. */
  function TrackStubs(spinId: string, items: seq<Gemini.OutlineTrack>): (r: seq<Audiocast>)
    ensures |r| == |items|
    ensures DistinctIds(r)
    ensures forall i :: 0 <= i < |r| ==>
      && r[i].id == TrackId(spinId, i) && r[i].topicId == spinId
      && r[i].title == items[i].title && r[i].description == Some(items[i].description)
      && r[i].imageUrl == "" && r[i].audioUrl == "" && r[i].status == Pending
  {
    var r := seq(|items|, i requires 0 <= i < |items| =>
      Audiocast(TrackId(spinId, i), spinId, items[i].title, Some(items[i].description), "", "", Pending));
    assert forall i, j :: 0 <= i < j < |r| ==> r[i].id != r[j].id by {
      forall i, j | 0 <= i < j < |r| ensures r[i].id != r[j].id {
        if r[i].id == r[j].id {
          TrackIdInjective(spinId, i, j);
        }
      }
    }
    r
  }

  /** The seeded tracks of one topic, in seed order. */
  function ForTopic(audiocasts: seq<Audiocast>, topicId: string): (r: seq<Audiocast>)
    ensures forall t :: t in r ==> t in audiocasts && t.topicId == topicId
    ensures forall t :: t in audiocasts && t.topicId == topicId ==> t in r
  {
    if audiocasts == [] then []
    else (if audiocasts[0].topicId == topicId then [audiocasts[0]] else []) + ForTopic(audiocasts[1..], topicId)
  }

  /** Filtering a concatenation filters each part, so seed order and repetitions are kept. */
  lemma {:induction false} ForTopicAppend(a: seq<Audiocast>, b: seq<Audiocast>, topicId: string)
    ensures ForTopic(a + b, topicId) == ForTopic(a, topicId) + ForTopic(b, topicId)
  {
    if a == [] {
      assert a + b == b;
    } else {
      assert (a + b)[0] == a[0];
      assert (a + b)[1..] == a[1..] + b;
      ForTopicAppend(a[1..], b, topicId);
    }
  }

  /** A seeded track is kept exactly when it belongs to the topic, after the tracks before it. */
  lemma ForTopicSnoc(a: seq<Audiocast>, x: Audiocast, topicId: string)
    ensures ForTopic(a + [x], topicId) == ForTopic(a, topicId) + (if x.topicId == topicId then [x] else [])
  {
    ForTopicAppend(a, [x], topicId);
    assert [x][1..] == [];
  }

  /** Filtering keeps ids distinct. */
  lemma {:induction false} ForTopicDistinct(audiocasts: seq<Audiocast>, topicId: string)
    requires DistinctIds(audiocasts)
    ensures DistinctIds(ForTopic(audiocasts, topicId))
  {
    if audiocasts != [] {
      var rest := ForTopic(audiocasts[1..], topicId);
      ForTopicDistinct(audiocasts[1..], topicId);
      if audiocasts[0].topicId == topicId {
        var r := [audiocasts[0]] + rest;
        forall i, j | 0 <= i < j < |r| ensures r[i].id != r[j].id {
          if i == 0 {
            assert r[j] in rest;
            var k :| 0 <= k < |audiocasts[1..]| && audiocasts[1..][k] == r[j];
            assert audiocasts[k + 1] == r[j];
          } else {
            assert r[i] == rest[i - 1] && r[j] == rest[j - 1];
          }
        }
      }
    }
  }

  /** The ids of the seed topics, in order. */
  function TopicIds(topics: seq<Topic>): (r: seq<string>)
    ensures |r| == |topics| && forall i :: 0 <= i < |topics| ==> r[i] == topics[i].id
  {
    seq(|topics|, i requires 0 <= i < |topics| => topics[i].id)
  }

  /** The index of the first seed topic with id `k`, or -1. */
  function TopicIndex(topics: seq<Topic>, k: string): (r: int)
    ensures -1 <= r < |topics|
    ensures r >= 0 ==> topics[r].id == k && forall j :: 0 <= j < r ==> topics[j].id != k
    ensures r == -1 <==> k !in TopicIds(topics)
  {
    if topics == [] then -1
    else if topics[0].id == k then 0
    else
      var i := TopicIndex(topics[1..], k);
      assert TopicIds(topics) == [topics[0].id] + TopicIds(topics[1..]);
      if i < 0 then -1 else i + 1
  }

  /** Searching a topic list extended by one topic. */
  lemma {:induction false} TopicIndexSnoc(topics: seq<Topic>, t: Topic, k: string)
    ensures TopicIndex(topics + [t], k) ==
      if TopicIndex(topics, k) >= 0 then TopicIndex(topics, k)
      else if t.id == k then |topics| else -1
  {
    if topics != [] {
      assert (topics + [t])[1..] == topics[1..] + [t];
      TopicIndexSnoc(topics[1..], t, k);
    }
  }

  /** The initial store: one session per seeded topic, holding that topic's seeded tracks, created at time 0;
      a later topic with a repeated id replaces the earlier one. */
  function InitialSpins(topics: seq<Topic>, audiocasts: seq<Audiocast>): (r: map<string, Session>)
    ensures forall k :: k in r ==> r[k].topic.id == k && r[k].tracks == ForTopic(audiocasts, k) && r[k].createdAt == 0
    ensures forall k :: k in r <==> k in TopicIds(topics)
    decreases |topics|
  {
    if topics == [] then map[]
    else
      var t := topics[|topics| - 1];
      var prefix := topics[..|topics| - 1];
      assert TopicIds(topics) == TopicIds(prefix) + [t.id];
      InitialSpins(prefix, audiocasts)[t.id := Session(t, ForTopic(audiocasts, t.id), 0)]
  }

  /** The order of the initial store's keys: a re-assigned key keeps its first position. */
  function InitialOrder(topics: seq<Topic>): (r: seq<string>)
    ensures forall i, j :: 0 <= i < j < |r| ==> r[i] != r[j]
    ensures forall k :: k in r <==> k in TopicIds(topics)
    decreases |topics|
  {
    if topics == [] then []
    else
      var t := topics[|topics| - 1];
      var prefix := topics[..|topics| - 1];
      assert TopicIds(topics) == TopicIds(prefix) + [t.id];
      var order := InitialOrder(prefix);
      if t.id in order then order else order + [t.id]
  }

  /** The initial store of a non-empty seed list: the store of all but the last topic, then the last topic assigned. */
  lemma InitialSpinsSnoc(topics: seq<Topic>, audiocasts: seq<Audiocast>)
    requires topics != []
    ensures var t := topics[|topics| - 1];
      InitialSpins(topics, audiocasts) ==
      InitialSpins(topics[..|topics| - 1], audiocasts)[t.id := Session(t, ForTopic(audiocasts, t.id), 0)]
  {
  }

  /** The index of the last seed topic with id `k`, or -1. */
  function LastTopicIndex(topics: seq<Topic>, k: string): (r: int)
    ensures -1 <= r < |topics|
    ensures r >= 0 ==> topics[r].id == k && forall j :: r < j < |topics| ==> topics[j].id != k
    ensures r == -1 <==> k !in TopicIds(topics)
    decreases |topics|
  {
    if topics == [] then -1
    else
      var prefix := topics[..|topics| - 1];
      assert TopicIds(topics) == TopicIds(prefix) + [topics[|topics| - 1].id];
      if topics[|topics| - 1].id == k then |topics| - 1 else LastTopicIndex(prefix, k)
  }

  /** A key's session holds the last seed topic with that id: later assignments overwrite earlier ones. */
  lemma {:induction false} InitialSpinsLastTopic(topics: seq<Topic>, audiocasts: seq<Audiocast>, k: string)
    requires k in InitialSpins(topics, audiocasts)
    ensures LastTopicIndex(topics, k) >= 0
    ensures InitialSpins(topics, audiocasts)[k].topic == topics[LastTopicIndex(topics, k)]
    decreases |topics|
  {
    assert k in TopicIds(topics);
    var t := topics[|topics| - 1];
    var prefix := topics[..|topics| - 1];
    InitialSpinsSnoc(topics, audiocasts);
    if t.id != k {
      InitialSpinsLastTopic(prefix, audiocasts, k);
      assert topics[LastTopicIndex(prefix, k)] == prefix[LastTopicIndex(prefix, k)];
    }
  }

  /** The key order after one more topic: its id is appended when new. */
  lemma InitialOrderSnoc(prefix: seq<Topic>, t: Topic)
    ensures var order := InitialOrder(prefix);
      InitialOrder(prefix + [t]) == if t.id in order then order else order + [t.id]
  {
    assert (prefix + [t])[..|prefix|] == prefix;
  }

  /** A key already seeded keeps its first index when one more topic is seeded. */
  lemma TopicIndexKept(prefix: seq<Topic>, t: Topic, x: string)
    requires x in TopicIds(prefix)
    ensures 0 <= TopicIndex(prefix + [t], x) == TopicIndex(prefix, x) < |prefix|
  {
    TopicIndexSnoc(prefix, t, x);
  }

  /** The keys appear in the order of the first seed topic carrying each of them: every key has one,
      and each key's comes after the previous key's. */
  ghost predicate FirstTopicOrder(topics: seq<Topic>, keys: seq<string>) {
    && (forall i :: 0 <= i < |keys| ==> 0 <= TopicIndex(topics, keys[i]))
    && (forall i :: 0 < i < |keys| ==> TopicIndex(topics, keys[i - 1]) < TopicIndex(topics, keys[i]))
  }

  /** Seeding one more topic keeps the first-topic order of keys already seeded. */
  lemma FirstTopicOrderKept(topics: seq<Topic>, t: Topic, keys: seq<string>)
    requires FirstTopicOrder(topics, keys)
    requires forall x :: x in keys ==> x in TopicIds(topics)
    ensures FirstTopicOrder(topics + [t], keys)
  {
    forall i | 0 <= i < |keys| ensures TopicIndex(topics + [t], keys[i]) == TopicIndex(topics, keys[i]) {
      TopicIndexKept(topics, t, keys[i]);
    }
  }

  /** The id of a newly seeded topic goes after every key seeded before it. */
  lemma FirstTopicOrderAppend(topics: seq<Topic>, t: Topic, keys: seq<string>)
    requires FirstTopicOrder(topics + [t], keys)
    requires forall x :: x in keys ==> x in TopicIds(topics)
    requires t.id !in TopicIds(topics)
    ensures FirstTopicOrder(topics + [t], keys + [t.id])
  {
    var r := keys + [t.id];
    TopicIndexSnoc(topics, t, t.id);
    assert TopicIndex(topics + [t], t.id) == |topics|;
    forall i | 0 <= i < |keys| ensures r[i] == keys[i] && TopicIndex(topics + [t], keys[i]) < |topics| {
      TopicIndexKept(topics, t, keys[i]);
    }
    assert forall i :: 0 <= i < |r| ==> 0 <= TopicIndex(topics + [t], r[i]);
    forall i | 0 < i < |r| ensures TopicIndex(topics + [t], r[i - 1]) < TopicIndex(topics + [t], r[i]) {
      if i < |keys| {
        assert r[i - 1] == keys[i - 1] && r[i] == keys[i];
      }
    }
  }

  /** Adjacent order extends to any two keys: an earlier key's first seed topic comes first. */
  lemma {:induction false} FirstTopicOrderPair(topics: seq<Topic>, keys: seq<string>, i: nat, j: nat)
    requires FirstTopicOrder(topics, keys)
    requires i < j < |keys|
    ensures TopicIndex(topics, keys[i]) < TopicIndex(topics, keys[j])
    decreases j - i
  {
    if i + 1 < j {
      FirstTopicOrderPair(topics, keys, i, j - 1);
    }
  }

  /** The initial keys are in order of each id's first seed topic. */
  lemma {:induction false} InitialOrderFirstOccurrence(topics: seq<Topic>)
    ensures FirstTopicOrder(topics, InitialOrder(topics))
    decreases |topics|
  {
    if topics != [] {
      var prefix := topics[..|topics| - 1];
      assert topics == prefix + [topics[|topics| - 1]];
      var t := topics[|topics| - 1];
      var order := InitialOrder(prefix);
      InitialOrderFirstOccurrence(prefix);
      InitialOrderSnoc(prefix, t);
      FirstTopicOrderKept(prefix, t, order);
      if t.id !in order {
        FirstTopicOrderAppend(prefix, t, order);
      }
    }
  }

  /** Each session is newer than or as new as the next. */
  predicate NewestFirst(s: seq<Session>) {
    forall i, j :: 0 <= i < j < |s| ==> s[i].createdAt >= s[j].createdAt
  }

  /** The sessions created at time `c`, in their order. */
  function CreatedAt(s: seq<Session>, c: int): seq<Session> {
    if s == [] then [] else (if s[0].createdAt == c then [s[0]] else []) + CreatedAt(s[1..], c)
  }

  /** Places `x` before the first session that is not newer than it. */
  function InsertNewest(x: Session, s: seq<Session>): (r: seq<Session>)
    ensures |r| == |s| + 1 && x in r
  {
    if s == [] || s[0].createdAt <= x.createdAt then [x] + s
    else [s[0]] + InsertNewest(x, s[1..])
  }

  /** `.sort((a, b) => b.createdAt - a.createdAt)`: newest first, ties kept in their order (the sort is stable). */
  function SortNewestFirst(s: seq<Session>): (r: seq<Session>)
    ensures |r| == |s|
  {
    if s == [] then [] else InsertNewest(s[0], SortNewestFirst(s[1..]))
  }

  lemma {:induction false} InsertNewestPermutes(x: Session, s: seq<Session>)
    ensures multiset(InsertNewest(x, s)) == multiset([x] + s)
  {
    if s != [] && s[0].createdAt > x.createdAt {
      InsertNewestPermutes(x, s[1..]);
      assert s == [s[0]] + s[1..];
    }
  }

  lemma {:induction false} InsertNewestSorted(x: Session, s: seq<Session>)
    requires NewestFirst(s)
    ensures NewestFirst(InsertNewest(x, s))
  {
    if s != [] && s[0].createdAt > x.createdAt {
      var rest := InsertNewest(x, s[1..]);
      InsertNewestSorted(x, s[1..]);
      InsertNewestPermutes(x, s[1..]);
      var r := [s[0]] + rest;
      forall i, j | 0 <= i < j < |r| ensures r[i].createdAt >= r[j].createdAt {
        if i == 0 {
          assert r[j] in multiset(rest);
          assert r[j] in [x] + s[1..];
        }
      }
    }
  }

  lemma {:induction false} InsertNewestStable(x: Session, s: seq<Session>, c: int)
    ensures CreatedAt(InsertNewest(x, s), c) == CreatedAt([x] + s, c)
  {
    if s != [] && s[0].createdAt > x.createdAt {
      var rest := InsertNewest(x, s[1..]);
      InsertNewestStable(x, s[1..], c);
      var r := [s[0]] + rest;
      assert r[1..] == rest;
      assert ([x] + s)[1..] == s;
      assert ([x] + s[1..])[1..] == s[1..];
      assert s == [s[0]] + s[1..];
    }
  }

  /** The newest-first order is sorted, a permutation of its input, and stable. */
  lemma {:induction false} SortNewestFirstCorrect(s: seq<Session>)
    ensures NewestFirst(SortNewestFirst(s))
    ensures multiset(SortNewestFirst(s)) == multiset(s)
    ensures forall c :: CreatedAt(SortNewestFirst(s), c) == CreatedAt(s, c)
  {
    if s != [] {
      var rest := SortNewestFirst(s[1..]);
      SortNewestFirstCorrect(s[1..]);
      InsertNewestSorted(s[0], rest);
      InsertNewestPermutes(s[0], rest);
      assert s == [s[0]] + s[1..];
    }
    forall c ensures CreatedAt(SortNewestFirst(s), c) == CreatedAt(s, c) {
      SortNewestFirstStable(s, c);
    }
  }

  /** Sorting keeps the order of the sessions created at any one time. */
  lemma {:induction false} SortNewestFirstStable(s: seq<Session>, c: int)
    ensures CreatedAt(SortNewestFirst(s), c) == CreatedAt(s, c)
  {
    if s != [] {
      var rest := SortNewestFirst(s[1..]);
      SortNewestFirstStable(s[1..], c);
      InsertNewestStable(s[0], rest, c);
      assert ([s[0]] + rest)[1..] == rest;
      assert CreatedAt([s[0]] + rest, c) == (if s[0].createdAt == c then [s[0]] else []) + CreatedAt(rest, c);
    }
  }
}
