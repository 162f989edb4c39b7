/**
 * The per-track generation status machine of App.tsx (`generateSingleTrackAssets`) and the
 * sequential driver over a track list (`generateAssetsForTracks`), as functions on a snapshot
 * of the store and the two playback pointers. The outcome of the audio service for a track is
 * an input: `Answered(url)` when `generateTrackAudio` resolved to an object URL, `Threw` when
 * it rejected.
 */
module Pipeline {
  import opened Wrappers
  import opened Types
  import opened Store
  import opened Queue
  import opened Gemini

  /** The part of the app state the pipeline reads and writes. */
  datatype Snapshot = Snapshot(spins: map<string, Session>, playingSpinId: Option<string>, playingTrackId: Option<string>)

  /** First step: the track is marked as generating. */
  function Begin(s: Snapshot, spinId: string, track: Audiocast): (r: Snapshot)
    ensures r.spins.Keys == s.spins.Keys
    ensures r.playingSpinId == s.playingSpinId && r.playingTrackId == s.playingTrackId
  {
    s.(spins := UpdateTrackInSpin(s.spins, spinId, track.id, StatusPatch(Generating)))
  }

  /** Auto-play: the finished track starts playing only when no track pointer is set (an empty id counts as unset). */
  function AutoPlay(s: Snapshot, spinId: string, trackId: string): (r: Snapshot)
    ensures r.spins == s.spins
    ensures IsSet(s.playingTrackId) ==> r == s
    ensures !IsSet(s.playingTrackId) ==> r.playingSpinId == Some(spinId) && r.playingTrackId == Some(trackId)
  {
    if !IsSet(s.playingTrackId) then s.(playingSpinId := Some(spinId), playingTrackId := Some(trackId)) else s
  }

  /** Second step: ready with the audio URL (then auto-play), or error. */
  function Settle(s: Snapshot, spinId: string, track: Audiocast, audio: Reply<string>): (r: Snapshot)
    ensures r.spins.Keys == s.spins.Keys
    ensures audio.Threw? || IsSet(s.playingTrackId) ==>
      r.playingSpinId == s.playingSpinId && r.playingTrackId == s.playingTrackId
    ensures audio.Answered? && !IsSet(s.playingTrackId) ==>
      r.playingSpinId == Some(spinId) && r.playingTrackId == Some(track.id)
  {
    match audio
    case Answered(url) => AutoPlay(s.(spins := UpdateTrackInSpin(s.spins, spinId, track.id, ReadyPatch(url))), spinId, track.id)
    case Threw => s.(spins := UpdateTrackInSpin(s.spins, spinId, track.id, StatusPatch(Error)))
  }

  /** One run of `generateSingleTrackAssets`. */
  function ProcessTrack(s: Snapshot, spinId: string, track: Audiocast, audio: Reply<string>): (r: Snapshot)
    ensures r.spins.Keys == s.spins.Keys
    ensures r == s.(spins := r.spins) || (r.playingSpinId == Some(spinId) && r.playingTrackId == Some(track.id))
  {
    Settle(Begin(s, spinId, track), spinId, track, audio)
  }

  /** The tracks processed one after another, in list order: the last track is processed last. */
  function RunPipeline(s: Snapshot, spinId: string, tracks: seq<Audiocast>, audio: Audiocast -> Reply<string>): (r: Snapshot)
    ensures r.spins.Keys == s.spins.Keys
    decreases |tracks|
  {
    if tracks == [] then s
    else
      var n := |tracks| - 1;
      ProcessTrack(RunPipeline(s, spinId, tracks[..n], audio), spinId, tracks[n], audio(tracks[n]))
  }

  /** Reference definition of a settled track: what the status machine must leave behind. */
  function Expected(t: Audiocast, audio: Reply<string>): Audiocast {
    match audio
    case Answered(url) => t.(status := Ready, audioUrl := url)
    case Threw => t.(status := Error)
  }

  /** A track after a whole pipeline run: settled by the list entry with its id, if any. */
  function Final(t: Audiocast, tracks: seq<Audiocast>, audio: Audiocast -> Reply<string>): Audiocast {
    var i := FindIndex(tracks, Some(t.id));
    if i >= 0 then Expected(t, audio(tracks[i])) else t
  }

  /** While a track is being generated, it (and only it) shows the generating status. */
  lemma BeginMarksGenerating(s: Snapshot, spinId: string, track: Audiocast)
    requires spinId in s.spins
    ensures var before, after := s.spins[spinId].tracks, Begin(s, spinId, track).spins[spinId].tracks;
      && |after| == |before|
      && forall j :: 0 <= j < |before| ==>
           after[j] == if before[j].id == track.id then before[j].(status := Generating) else before[j]
  {
  }

  /** One track run changes only the tracks carrying that id, and leaves them settled. */
  lemma ProcessTrackOutcome(s: Snapshot, spinId: string, track: Audiocast, audio: Reply<string>)
    ensures var r := ProcessTrack(s, spinId, track, audio);
      && r.spins.Keys == s.spins.Keys
      && (forall k :: k in s.spins && k != spinId ==> r.spins[k] == s.spins[k])
      && (spinId in s.spins ==>
           var before, after := s.spins[spinId], r.spins[spinId];
           && after.topic == before.topic && after.createdAt == before.createdAt
           && |after.tracks| == |before.tracks|
           && forall j :: 0 <= j < |before.tracks| ==>
                after.tracks[j] == if before.tracks[j].id == track.id then Expected(before.tracks[j], audio) else before.tracks[j])
  {
  }

  /** Only a successful run can move the pointers, and only when no track was playing. */
  lemma ProcessTrackPointers(s: Snapshot, spinId: string, track: Audiocast, audio: Reply<string>)
    ensures var r := ProcessTrack(s, spinId, track, audio);
      if audio.Answered? && !IsSet(s.playingTrackId)
      then r.playingSpinId == Some(spinId) && r.playingTrackId == Some(track.id)
      else r.playingSpinId == s.playingSpinId && r.playingTrackId == s.playingTrackId
  {
  }

  /** A pipeline run keeps every session's key, topic, creation time and track ids, and leaves other sessions alone. */
  lemma {:induction false} PipelineFrame(s: Snapshot, spinId: string, tracks: seq<Audiocast>, audio: Audiocast -> Reply<string>)
    ensures var r := RunPipeline(s, spinId, tracks, audio);
      && r.spins.Keys == s.spins.Keys
      && (forall k :: k in s.spins && k != spinId ==> r.spins[k] == s.spins[k])
      && (forall k :: k in s.spins ==>
            && r.spins[k].topic == s.spins[k].topic && r.spins[k].createdAt == s.spins[k].createdAt
            && Ids(r.spins[k].tracks) == Ids(s.spins[k].tracks))
    decreases |tracks|
  {
    if tracks != [] {
      var n := |tracks| - 1;
      PipelineFrame(s, spinId, tracks[..n], audio);
      ProcessTrackOutcome(RunPipeline(s, spinId, tracks[..n], audio), spinId, tracks[n], audio(tracks[n]));
    }
  }

  /** The candidate list minus its last entry, when ids are distinct. */
  lemma DistinctInit(tracks: seq<Audiocast>)
    requires DistinctIds(tracks) && tracks != []
    ensures var n := |tracks| - 1;
      && DistinctIds(tracks[..n])
      && FindIndex(tracks[..n], Some(tracks[n].id)) == -1
      && tracks == tracks[..n] + [tracks[n]]
  {
  }

  /** With distinct ids, every track of the session named in the list ends exactly as its own outcome says. */
  lemma {:induction false} PipelineTracks(s: Snapshot, spinId: string, tracks: seq<Audiocast>, audio: Audiocast -> Reply<string>)
    requires DistinctIds(tracks)
    ensures var r := RunPipeline(s, spinId, tracks, audio);
      spinId in s.spins ==>
        && spinId in r.spins
        && var before, after := s.spins[spinId].tracks, r.spins[spinId].tracks;
           |after| == |before| && forall j :: 0 <= j < |before| ==> after[j] == Final(before[j], tracks, audio)
    decreases |tracks|
  {
    PipelineFrame(s, spinId, tracks, audio);
    if tracks != [] && spinId in s.spins {
      var n := |tracks| - 1;
      var init, x := tracks[..n], tracks[n];
      DistinctInit(tracks);
      PipelineTracks(s, spinId, init, audio);
      PipelineFrame(s, spinId, init, audio);
      var mid := RunPipeline(s, spinId, init, audio);
      ProcessTrackOutcome(mid, spinId, x, audio(x));
      var before, middle, after := s.spins[spinId].tracks, mid.spins[spinId].tracks, RunPipeline(s, spinId, tracks, audio).spins[spinId].tracks;
      forall j | 0 <= j < |before| ensures after[j] == Final(before[j], tracks, audio) {
        FindIndexSnoc(init, x, Some(before[j].id));
        assert Ids(middle)[j] == Ids(before)[j];
      }
    }
  }

  /** Index of the first track whose audio succeeded, or -1. */
  function FirstReady(tracks: seq<Audiocast>, audio: Audiocast -> Reply<string>): (r: int)
    ensures -1 <= r < |tracks|
    ensures r >= 0 ==> audio(tracks[r]).Answered? && forall j :: 0 <= j < r ==> audio(tracks[j]).Threw?
    ensures r == -1 <==> forall j :: 0 <= j < |tracks| ==> audio(tracks[j]).Threw?
  {
    if tracks == [] then -1
    else if audio(tracks[0]).Answered? then 0
    else
      var k := FirstReady(tracks[1..], audio);
      if k < 0 then -1 else k + 1
  }

  lemma {:induction false} FirstReadySnoc(tracks: seq<Audiocast>, x: Audiocast, audio: Audiocast -> Reply<string>)
    ensures FirstReady(tracks + [x], audio) ==
      if FirstReady(tracks, audio) >= 0 then FirstReady(tracks, audio)
      else if audio(x).Answered? then |tracks| else -1
  {
    if tracks != [] {
      assert (tracks + [x])[1..] == tracks[1..] + [x];
      FirstReadySnoc(tracks[1..], x, audio);
    }
  }

  /**
   * "First ready wins": with nothing playing, the pointers end on the first track of the list
   * whose audio succeeded, even if later tracks succeed too; otherwise they are untouched.
   * (Track ids are non-empty: a track pointer of "" would count as unset.)
   */
  lemma {:induction false} PipelineAutoPlay(s: Snapshot, spinId: string, tracks: seq<Audiocast>, audio: Audiocast -> Reply<string>)
    requires forall i :: 0 <= i < |tracks| ==> tracks[i].id != ""
    ensures var r, k := RunPipeline(s, spinId, tracks, audio), FirstReady(tracks, audio);
      if !IsSet(s.playingTrackId) && k >= 0
      then r.playingSpinId == Some(spinId) && r.playingTrackId == Some(tracks[k].id)
      else r.playingSpinId == s.playingSpinId && r.playingTrackId == s.playingTrackId
    decreases |tracks|
  {
    if tracks != [] {
      var n := |tracks| - 1;
      var init, x := tracks[..n], tracks[n];
      assert tracks == init + [x];
      PipelineAutoPlay(s, spinId, init, audio);
      FirstReadySnoc(init, x, audio);
      ProcessTrackPointers(RunPipeline(s, spinId, init, audio), spinId, x, audio(x));
    }
  }
}
