/**
 * The state of the App component of App.tsx — the session store, its key order, the view and
 * the two playback pointers — as a class whose methods are the component's handlers. Each
 * React state updater runs to completion, so a handler is a sequence of field assignments;
 * service results arrive as parameters.
 */
module SpinsApp {
  import opened Wrappers
  import opened Text
  import opened Types
  import opened Store
  import opened Queue
  import opened Gemini
  import opened Pipeline

  /** `spin-${Date.now()}` */
  function SpinId(now: nat): (r: string)
    ensures StartsWith(r, "spin-") && |r| > 5
  {
    "spin-" + Decimal(now)
  }

  /** Different clock readings give different spin ids. */
  lemma SpinIdInjective(a: nat, b: nat)
    requires SpinId(a) == SpinId(b)
    ensures a == b
  {
    PrefixCancel("spin-", Decimal(a), Decimal(b));
    DecimalInjective(a, b);
  }

  /** The optimistic session: the prompt as title, no cover, no tracks yet. */
  function Placeholder(spinId: string, prompt: string, createdAt: int): (r: Session)
    ensures r.topic.id == spinId && r.topic.title == prompt && r.topic.imageUrl == ""
    ensures r.topic.description == Some("Generating...")
    ensures r.tracks == [] && r.createdAt == createdAt
  {
    Session(Topic(spinId, prompt, "", Some("Generating...")), [], createdAt)
  }

  /** Key order of an object after `{ ...prev, [k]: v }`: a new key goes last, an existing key keeps its place. */
  function WithKey(order: seq<string>, k: string): (r: seq<string>)
    ensures forall x :: x in r <==> x in order || x == k
    ensures (forall i, j :: 0 <= i < j < |order| ==> order[i] != order[j]) ==>
              forall i, j :: 0 <= i < j < |r| ==> r[i] != r[j]
    ensures k in order ==> r == order
    ensures k !in order ==> r == order + [k]
  {
    if k in order then order else order + [k]
  }

  /** The session after the outline arrived: the creative title and the track stubs. */
  function Outlined(s: Session, spinId: string, outline: SpinOutline): (r: Session)
    ensures r.createdAt == s.createdAt
    ensures r.topic.id == s.topic.id && r.topic.imageUrl == s.topic.imageUrl
    ensures r.topic.title == outline.title && r.topic.description == Some("Custom generated spin")
    ensures |r.tracks| == |outline.tracks| && DistinctIds(r.tracks)
  {
    s.(topic := s.topic.(title := outline.title, description := Some("Custom generated spin")),
       tracks := TrackStubs(spinId, outline.tracks))
  }

  /** The playing session with the steering track inserted. */
  function Steered(s: Session, current: Option<string>, position: Position, x: Audiocast): (r: Session)
    ensures r.topic == s.topic && r.createdAt == s.createdAt
    ensures multiset(r.tracks) == multiset(s.tracks) + multiset{x}
  {
    var i := InsertIndex(s.tracks, current, position);
    assert s.tracks == s.tracks[..i] + s.tracks[i..];
    s.(tracks := InsertAt(s.tracks, i, x))
  }

  class App {
    var spins: map<string, Session>
    /** Insertion order of the keys of `spins`, which is the order of `Object.values(spins)`. */
    var order: seq<string>
    var view: ViewState
    var viewingSpinId: Option<string>
    var playingSpinId: Option<string>
    var playingTrackId: Option<string>

    /** `order` lists each key of `spins` exactly once. */
    ghost predicate Valid()
      reads this
    {
      && (forall i, j :: 0 <= i < j < |order| ==> order[i] != order[j])
      && (forall k :: k in spins <==> k in order)
    }

    /** No session holds two tracks with the same id. */
    ghost predicate TracksDistinct()
      reads this
    {
      forall k :: k in spins ==> DistinctIds(spins[k].tracks)
    }

    /** No session holds a track with this id. */
    ghost predicate FreshTrackId(id: string)
      reads this
    {
      forall k :: k in spins ==> id !in Ids(spins[k].tracks)
    }

    /** The fields the generation pipeline reads and writes. */
    function State(): Snapshot
      reads this
    {
      Snapshot(spins, playingSpinId, playingTrackId)
    }

    /** The initial store: one session per seeded topic, holding that topic's seeded tracks. */
    constructor (topics: seq<Topic>, audiocasts: seq<Audiocast>)
      ensures Valid()
      ensures spins == InitialSpins(topics, audiocasts) && order == InitialOrder(topics)
      ensures view == Browse && viewingSpinId == None && playingSpinId == None && playingTrackId == None
      ensures DistinctIds(audiocasts) ==> TracksDistinct()
    {
      spins := InitialSpins(topics, audiocasts);
      order := InitialOrder(topics);
      view := Browse;
      viewingSpinId := None;
      playingSpinId := None;
      playingTrackId := None;
      new;
      if DistinctIds(audiocasts) {
        forall k | k in spins ensures DistinctIds(spins[k].tracks) {
          ForTopicDistinct(audiocasts, k);
        }
      }
    }

    /**
     * The synchronous part of `handleStartSpin`: a blank prompt is ignored; otherwise the
     * placeholder session is stored under `spin-<now>` and shown. `createdAt` is the second
     * clock reading.
     */
    method StartSpin(prompt: string, now: nat, createdAt: int) returns (spinId: Option<string>)
      requires Valid()
      modifies this
      ensures Valid()
      ensures IsBlank(prompt) ==>
        && spinId == None && spins == old(spins) && order == old(order)
        && view == old(view) && viewingSpinId == old(viewingSpinId)
      ensures !IsBlank(prompt) ==>
        && spinId == Some(SpinId(now))
        && spins == old(spins)[SpinId(now) := Placeholder(SpinId(now), prompt, createdAt)]
        && order == WithKey(old(order), SpinId(now))
        && view == TopicDetail && viewingSpinId == spinId
      ensures playingSpinId == old(playingSpinId) && playingTrackId == old(playingTrackId)
      ensures old(TracksDistinct()) ==> TracksDistinct()
    {
      if IsBlank(prompt) {
        return None;
      }
      var id := AddPlaceholder(prompt, now, createdAt);
      spinId := Some(id);
    }

    /** Stores and shows the placeholder session for a prompt. */
    method AddPlaceholder(prompt: string, now: nat, createdAt: int) returns (id: string)
      requires Valid()
      modifies this
      ensures Valid()
      ensures id == SpinId(now)
      ensures spins == old(spins)[id := Placeholder(id, prompt, createdAt)]
      ensures order == WithKey(old(order), id)
      ensures view == TopicDetail && viewingSpinId == Some(id)
      ensures playingSpinId == old(playingSpinId) && playingTrackId == old(playingTrackId)
      ensures old(TracksDistinct()) ==> TracksDistinct()
    {
      id := SpinId(now);
      spins := spins[id := Placeholder(id, prompt, createdAt)];
      order := WithKey(order, id);
      viewingSpinId := Some(id);
      view := TopicDetail;
    }

    /**
     * The rest of `handleStartSpin`, once the outline has arrived: the creative title, the
     * track stubs, then the generation of every stub in order (`audio` gives each track's
     * audio outcome). The session exists: no handler ever removes one.
     */
    method ReceiveOutline(spinId: string, outline: SpinOutline, audio: Audiocast -> Reply<string>)
      returns (newTracks: seq<Audiocast>)
      requires Valid() && spinId in spins
      modifies this
      ensures Valid() && order == old(order) && view == old(view) && viewingSpinId == old(viewingSpinId)
      ensures newTracks == TrackStubs(spinId, outline.tracks)
      ensures State() == RunPipeline(
        Snapshot(old(spins)[spinId := Outlined(old(spins)[spinId], spinId, outline)], old(playingSpinId), old(playingTrackId)),
        spinId, newTracks, audio)
      ensures old(TracksDistinct()) ==> TracksDistinct()
    {
      var session := spins[spinId];
      spins := spins[spinId := session.(topic := session.topic.(title := outline.title, description := Some("Custom generated spin")))];
      newTracks := TrackStubs(spinId, outline.tracks);
      spins := spins[spinId := spins[spinId].(tracks := newTracks)];
      assert spins == old(spins)[spinId := Outlined(session, spinId, outline)];
      assert old(TracksDistinct()) ==> TracksDistinct();
      GenerateAssetsForTracks(spinId, newTracks, audio);
    }

    /** The cover-image callback of `handleStartSpin`: a truthy URL becomes the topic's image. */
    method ApplySpinCover(spinId: string, imageUrl: Option<string>)
      requires Valid() && spinId in spins
      modifies this
      ensures Valid() && order == old(order) && view == old(view) && viewingSpinId == old(viewingSpinId)
      ensures playingSpinId == old(playingSpinId) && playingTrackId == old(playingTrackId)
      ensures spins == if IsSet(imageUrl)
        then old(spins)[spinId := old(spins)[spinId].(topic := old(spins)[spinId].topic.(imageUrl := imageUrl.value))]
        else old(spins)
      ensures old(TracksDistinct()) ==> TracksDistinct()
    {
      if IsSet(imageUrl) {
        var session := spins[spinId];
        spins := spins[spinId := session.(topic := session.topic.(imageUrl := imageUrl.value))];
      }
    }

    /** `updateTrackInSpin`: the field merge into the tracks with that id of one session. */
    method UpdateTrackInSpin(spinId: string, trackId: string, updates: TrackPatch)
      requires Valid()
      modifies this
      ensures Valid() && order == old(order) && view == old(view) && viewingSpinId == old(viewingSpinId)
      ensures playingSpinId == old(playingSpinId) && playingTrackId == old(playingTrackId)
      ensures spins == Store.UpdateTrackInSpin(old(spins), spinId, trackId, updates)
      ensures old(TracksDistinct()) ==> TracksDistinct()
    {
      spins := Store.UpdateTrackInSpin(spins, spinId, trackId, updates);
      forall k | k in spins && old(TracksDistinct()) ensures DistinctIds(spins[k].tracks) {
        SameIdsDistinct(old(spins)[k].tracks, spins[k].tracks);
      }
    }

    /** The image callback of `generateSingleTrackAssets`: a truthy URL becomes the track's image. */
    method ApplyTrackImage(spinId: string, trackId: string, imageUrl: Option<string>)
      requires Valid()
      modifies this
      ensures Valid() && order == old(order) && view == old(view) && viewingSpinId == old(viewingSpinId)
      ensures playingSpinId == old(playingSpinId) && playingTrackId == old(playingTrackId)
      ensures spins == if IsSet(imageUrl) then Store.UpdateTrackInSpin(old(spins), spinId, trackId, ImagePatch(imageUrl.value)) else old(spins)
      ensures old(TracksDistinct()) ==> TracksDistinct()
    {
      if IsSet(imageUrl) {
        UpdateTrackInSpin(spinId, trackId, ImagePatch(imageUrl.value));
      }
    }

    /** `generateSingleTrackAssets`: generating, then ready with auto-play, or error. */
    method GenerateSingleTrackAssets(spinId: string, track: Audiocast, audio: Reply<string>)
      requires Valid()
      modifies this
      ensures Valid() && order == old(order) && view == old(view) && viewingSpinId == old(viewingSpinId)
      ensures State() == ProcessTrack(old(State()), spinId, track, audio)
      ensures old(TracksDistinct()) ==> TracksDistinct()
    {
      UpdateTrackInSpin(spinId, track.id, StatusPatch(Generating));
      match audio
      case Answered(audioUrl) =>
        UpdateTrackInSpin(spinId, track.id, ReadyPatch(audioUrl));
        if !IsSet(playingTrackId) {
          playingSpinId := Some(spinId);
          playingTrackId := Some(track.id);
        }
      case Threw =>
        UpdateTrackInSpin(spinId, track.id, StatusPatch(Error));
    }

    /** `generateAssetsForTracks`: one track after another, in list order. */
    method GenerateAssetsForTracks(spinId: string, trackList: seq<Audiocast>, audio: Audiocast -> Reply<string>)
      requires Valid()
      modifies this
      ensures Valid() && order == old(order) && view == old(view) && viewingSpinId == old(viewingSpinId)
      ensures State() == RunPipeline(old(State()), spinId, trackList, audio)
      ensures old(TracksDistinct()) ==> TracksDistinct()
    {
      for i := 0 to |trackList|
        invariant Valid() && order == old(order) && view == old(view) && viewingSpinId == old(viewingSpinId)
        invariant State() == RunPipeline(old(State()), spinId, trackList[..i], audio)
        invariant old(TracksDistinct()) ==> TracksDistinct()
      {
        assert trackList[..i + 1][..i] == trackList[..i];
        GenerateSingleTrackAssets(spinId, trackList[i], audio(trackList[i]));
      }
      assert trackList[..|trackList|] == trackList;
    }

    /**
     * `handleSteer`: without a playing session nothing happens; otherwise a "Spin Update"
     * track is inserted at the end or right after the playing track, and generated.
     */
    method HandleSteer(steerPrompt: string, position: Position, now: nat, audio: Reply<string>)
      returns (steered: Option<Audiocast>)
      requires Valid()
      modifies this
      ensures Valid() && order == old(order) && view == old(view) && viewingSpinId == old(viewingSpinId)
      ensures !IsSet(old(playingSpinId)) || old(playingSpinId).value !in old(spins) ==>
        steered == None && State() == old(State())
      ensures IsSet(old(playingSpinId)) && old(playingSpinId).value in old(spins) ==>
        var spinId := old(playingSpinId).value;
        var session := old(spins)[spinId];
        var x := SteerTrack(session.topic.id, steerPrompt, now);
        && steered == Some(x)
        && State() == ProcessTrack(
             Snapshot(old(spins)[spinId := Steered(session, old(playingTrackId), position, x)], old(playingSpinId), old(playingTrackId)),
             spinId, x, audio)
      ensures old(TracksDistinct()) && old(FreshTrackId(SteerId(now))) ==> TracksDistinct()
    {
      if !IsSet(playingSpinId) || playingSpinId.value !in spins {
        return None;
      }
      var spinId := playingSpinId.value;
      var session := spins[spinId];
      var newTrack := SteerTrack(session.topic.id, steerPrompt, now);
      var updatedTracks := InsertAt(session.tracks, InsertIndex(session.tracks, playingTrackId, position), newTrack);
      if old(TracksDistinct()) && old(FreshTrackId(SteerId(now))) {
        forall j | 0 <= j < |session.tracks| ensures session.tracks[j].id != newTrack.id {
          assert Ids(session.tracks)[j] == session.tracks[j].id;
        }
        InsertKeepsDistinct(session.tracks, InsertIndex(session.tracks, playingTrackId, position), newTrack);
      }
      spins := spins[spinId := session.(tracks := updatedTracks)];
      GenerateSingleTrackAssets(spinId, newTrack, audio);
      steered := Some(newTrack);
    }

    /** `handlePlayTrack`: only a ready track starts playing, in the session being viewed if any. */
    method PlayTrack(track: Audiocast)
      modifies this
      ensures spins == old(spins) && order == old(order) && view == old(view) && viewingSpinId == old(viewingSpinId)
      ensures track.status != Ready ==> playingSpinId == old(playingSpinId) && playingTrackId == old(playingTrackId)
      ensures track.status == Ready ==>
        && playingTrackId == Some(track.id)
        && playingSpinId == if old(view) == TopicDetail && IsSet(old(viewingSpinId)) then old(viewingSpinId) else old(playingSpinId)
    {
      if track.status == Ready {
        if view == TopicDetail && IsSet(viewingSpinId) {
          playingSpinId := viewingSpinId;
        }
        playingTrackId := Some(track.id);
      }
    }

    /** `handleNext` */
    method Next()
      modifies this
      ensures spins == old(spins) && order == old(order) && view == old(view) && viewingSpinId == old(viewingSpinId)
      ensures playingSpinId == old(playingSpinId)
      ensures playingTrackId ==
        if IsSet(playingSpinId) && playingSpinId.value in spins
        then NextTrackId(spins[playingSpinId.value].tracks, old(playingTrackId))
        else old(playingTrackId)
    {
      if !IsSet(playingSpinId) || playingSpinId.value !in spins {
        return;
      }
      var tracks := spins[playingSpinId.value].tracks;
      var idx := FindIndex(tracks, playingTrackId);
      if idx < |tracks| - 1 {
        playingTrackId := Some(tracks[idx + 1].id);
      }
    }

    /** `handlePrevious` */
    method Previous()
      modifies this
      ensures spins == old(spins) && order == old(order) && view == old(view) && viewingSpinId == old(viewingSpinId)
      ensures playingSpinId == old(playingSpinId)
      ensures playingTrackId ==
        if IsSet(playingSpinId) && playingSpinId.value in spins
        then PreviousTrackId(spins[playingSpinId.value].tracks, old(playingTrackId))
        else old(playingTrackId)
    {
      if !IsSet(playingSpinId) || playingSpinId.value !in spins {
        return;
      }
      var tracks := spins[playingSpinId.value].tracks;
      var idx := FindIndex(tracks, playingTrackId);
      if idx > 0 {
        playingTrackId := Some(tracks[idx - 1].id);
      }
    }

    /** The `currentTrack` selector: the playing session's track with the playing id, or none. */
    function CurrentTrack(): (r: Option<Audiocast>)
      reads this
      ensures r.Some? <==>
        && IsSet(playingSpinId) && playingSpinId.value in spins
        && exists j :: 0 <= j < |spins[playingSpinId.value].tracks| && playingTrackId == Some(spins[playingSpinId.value].tracks[j].id)
      ensures r.Some? ==>
        && IsSet(playingSpinId) && playingSpinId.value in spins
        && r.value in spins[playingSpinId.value].tracks && playingTrackId == Some(r.value.id)
        && r.value == spins[playingSpinId.value].tracks[FindIndex(spins[playingSpinId.value].tracks, playingTrackId)]
    {
      if IsSet(playingSpinId) && playingSpinId.value in spins
      then Find(spins[playingSpinId.value].tracks, playingTrackId)
      else None
    }

    /** `Object.values(spins)`, in key insertion order. */
    function Sessions(): (r: seq<Session>)
      requires Valid()
      reads this
      ensures |r| == |order| && forall i :: 0 <= i < |order| ==> r[i] == spins[order[i]]
    {
      var m, ks := spins, order;
      seq(|ks|, i requires 0 <= i < |ks| => m[ks[i]])
    }

    /** The `sortedSpins` selector: every session once, newest first, ties in key order. */
    function SortedSpins(): (r: seq<Session>)
      requires Valid()
      reads this
      ensures NewestFirst(r)
      ensures multiset(r) == multiset(Sessions())
      ensures forall c :: CreatedAt(r, c) == CreatedAt(Sessions(), c)
      ensures forall k :: k in spins ==> spins[k] in r
    {
      var vs := Sessions();
      SortNewestFirstCorrect(vs);
      assert forall k :: k in spins ==> spins[k] in multiset(vs) by {
        forall k | k in spins ensures spins[k] in multiset(vs) {
          var i :| 0 <= i < |order| && order[i] == k;
          assert vs[i] == spins[k];
        }
      }
      SortNewestFirst(vs)
    }
  }
}
