/**
 * The playback queue of App.tsx on values: locating the playing track, the index moves of
 * `handleNext` / `handlePrevious`, and the insertion of a steering track by `handleSteer`.
 */
module Queue {
  import opened Wrappers
  import opened Text
  import opened Types
  import opened Store

  /** The index of the first track with the target id, or -1 (no id is ever absent, so `None` never matches). */
  function FindIndex(ts: seq<Audiocast>, target: Option<string>): (r: int)
    ensures -1 <= r < |ts|
    ensures r >= 0 ==> target == Some(ts[r].id) && forall j :: 0 <= j < r ==> target != Some(ts[j].id)
    ensures r == -1 <==> forall j :: 0 <= j < |ts| ==> target != Some(ts[j].id)
  {
    if ts == [] then -1
    else if target == Some(ts[0].id) then 0
    else
      var k := FindIndex(ts[1..], target);
      if k < 0 then -1 else k + 1
  }

  /** With distinct ids, a track's own id finds that track. */
  lemma FindIndexOfMember(ts: seq<Audiocast>, j: nat)
    requires DistinctIds(ts) && j < |ts|
    ensures FindIndex(ts, Some(ts[j].id)) == j
  {
  }

  /** Searching a list extended by one track. */
  lemma {:induction false} FindIndexSnoc(ts: seq<Audiocast>, x: Audiocast, target: Option<string>)
    ensures FindIndex(ts + [x], target) ==
      if FindIndex(ts, target) >= 0 then FindIndex(ts, target)
      else if target == Some(x.id) then |ts| else -1
  {
    if ts != [] {
      assert (ts + [x])[1..] == ts[1..] + [x];
      FindIndexSnoc(ts[1..], x, target);
    }
  }

  /** The first track with the target id, if any. */
  function Find(ts: seq<Audiocast>, target: Option<string>): (r: Option<Audiocast>)
    ensures r.Some? <==> exists j :: 0 <= j < |ts| && target == Some(ts[j].id)
    ensures r.Some? ==> r.value in ts && target == Some(r.value.id)
    ensures r.Some? ==> r.value == ts[FindIndex(ts, target)]
  {
    var k := FindIndex(ts, target);
    if k >= 0 then Some(ts[k]) else None
  }

  /** The pointer after `handleNext`: move to idx + 1 when idx < length - 1 (from "not found", the first track). */
  function NextTrackId(ts: seq<Audiocast>, current: Option<string>): (r: Option<string>)
    ensures r == current || exists j :: 0 <= j < |ts| && r == Some(ts[j].id)
  {
    var idx := FindIndex(ts, current);
    if idx < |ts| - 1 then Some(ts[idx + 1].id) else current
  }

  /** The pointer after `handlePrevious`: move to idx - 1 when idx > 0. */
  function PreviousTrackId(ts: seq<Audiocast>, current: Option<string>): (r: Option<string>)
    ensures r == current || exists j :: 0 <= j < |ts| && r == Some(ts[j].id)
  {
    var idx := FindIndex(ts, current);
    if idx > 0 then Some(ts[idx - 1].id) else current
  }

  /** Next advances by exactly one position, clamped at the last track; a pointer that is not
      in the list (idx = -1) moves to the first track of a non-empty list. */
  lemma NextMoves(ts: seq<Audiocast>, current: Option<string>)
    requires DistinctIds(ts)
    ensures var idx := FindIndex(ts, current);
      && (idx < |ts| - 1 ==> FindIndex(ts, NextTrackId(ts, current)) == idx + 1)
      && (idx >= |ts| - 1 ==> NextTrackId(ts, current) == current)
  {
    var idx := FindIndex(ts, current);
    if idx < |ts| - 1 {
      FindIndexOfMember(ts, idx + 1);
    }
  }

  /** Previous steps back by exactly one position and never wraps. */
  lemma PreviousMoves(ts: seq<Audiocast>, current: Option<string>)
    requires DistinctIds(ts)
    ensures var idx := FindIndex(ts, current);
      && (idx > 0 ==> FindIndex(ts, PreviousTrackId(ts, current)) == idx - 1)
      && (idx <= 0 ==> PreviousTrackId(ts, current) == current)
  {
    var idx := FindIndex(ts, current);
    if idx > 0 {
      FindIndexOfMember(ts, idx - 1);
    }
  }

  /** Next then previous returns to a track that is in the list and not the last one. */
  lemma NextThenPrevious(ts: seq<Audiocast>, current: Option<string>)
    requires DistinctIds(ts)
    requires 0 <= FindIndex(ts, current) < |ts| - 1
    ensures PreviousTrackId(ts, NextTrackId(ts, current)) == current
  {
    NextMoves(ts, current);
  }

  /** Previous then next returns to a track that is not the first one. */
  lemma PreviousThenNext(ts: seq<Audiocast>, current: Option<string>)
    requires DistinctIds(ts)
    requires FindIndex(ts, current) > 0
    ensures NextTrackId(ts, PreviousTrackId(ts, current)) == current
  {
    PreviousMoves(ts, current);
  }

  /** On a one-track session whose track is current, both moves do nothing. */
  lemma SingleTrackMovesNothing(t: Audiocast)
    ensures NextTrackId([t], Some(t.id)) == Some(t.id)
    ensures PreviousTrackId([t], Some(t.id)) == Some(t.id)
  {
    assert FindIndex([t], Some(t.id)) == 0;
  }

  /** Where `handleSteer` puts the new track. */
  datatype Position = Next | Last

  /** `'last'`: the end; `'next'`: right after the playing track, or the front when it is not in the list. */
  function InsertIndex(ts: seq<Audiocast>, current: Option<string>, position: Position): (r: nat)
    ensures r <= |ts|
    ensures position == Last ==> r == |ts|
    ensures position == Next && (exists j :: 0 <= j < |ts| && current == Some(ts[j].id)) ==>
      0 < r && current == Some(ts[r - 1].id) && forall j :: 0 <= j < r - 1 ==> current != Some(ts[j].id)
    ensures position == Next && (forall j :: 0 <= j < |ts| ==> current != Some(ts[j].id)) ==> r == 0
  {
    match position
    case Last => |ts|
    case Next =>
      var currentIndex := FindIndex(ts, current);
      if currentIndex >= 0 then currentIndex + 1 else 0
  }

  /** `splice(i, 0, x)` on a copy (and `push(x)` for i = length). */
  function InsertAt(ts: seq<Audiocast>, i: nat, x: Audiocast): (r: seq<Audiocast>)
    requires i <= |ts|
    ensures |r| == |ts| + 1 && r[i] == x
    ensures r[..i] == ts[..i] && r[i + 1..] == ts[i..]
  {
    ts[..i] + [x] + ts[i..]
  }

  /** `splice(i, 1)` on a copy. */
  function RemoveAt(ts: seq<Audiocast>, i: nat): (r: seq<Audiocast>)
    requires i < |ts|
    ensures |r| == |ts| - 1
  {
    ts[..i] + ts[i + 1..]
  }

  /** Insertion moves no existing track relative to another: taking the new track out gives the old list. */
  lemma RemoveInserted(ts: seq<Audiocast>, i: nat, x: Audiocast)
    requires i <= |ts|
    ensures RemoveAt(InsertAt(ts, i, x), i) == ts
  {
    var r := InsertAt(ts, i, x);
    assert r[..i] + r[i + 1..] == ts[..i] + ts[i..];
    assert ts == ts[..i] + ts[i..];
  }

  /** A track whose id is new keeps the ids distinct. */
  lemma InsertKeepsDistinct(ts: seq<Audiocast>, i: nat, x: Audiocast)
    requires i <= |ts| && DistinctIds(ts)
    requires forall j :: 0 <= j < |ts| ==> ts[j].id != x.id
    ensures DistinctIds(InsertAt(ts, i, x))
  {
    var r := InsertAt(ts, i, x);
    forall a, b | 0 <= a < b < |r| ensures r[a].id != r[b].id {
      var ia := if a < i then a else if a == i then -1 else a - 1;
      var ib := if b < i then b else if b == i then -1 else b - 1;
      assert ia >= 0 ==> r[a] == ts[ia];
      assert ib >= 0 ==> r[b] == ts[ib];
    }
  }

  /** `steer-${Date.now()}` */
  function SteerId(now: nat): (r: string)
    ensures StartsWith(r, "steer-") && |r| > 6
  {
    "steer-" + Decimal(now)
  }

  /** Different clock readings give different steer ids. */
  lemma SteerIdInjective(a: nat, b: nat)
    requires SteerId(a) == SteerId(b)
    ensures a == b
  {
    PrefixCancel("steer-", Decimal(a), Decimal(b));
    DecimalInjective(a, b);
  }

  /** The steering track: a fixed title, the user's text as description, pending, no media yet. */
  function SteerTrack(topicId: string, steerPrompt: string, now: nat): (r: Audiocast)
    ensures r.id == SteerId(now) && r.topicId == topicId
    ensures r.title == "Spin Update" && r.description == Some(steerPrompt)
    ensures r.imageUrl == "" && r.audioUrl == "" && r.status == Pending
  {
    Audiocast(SteerId(now), topicId, "Spin Update", Some(steerPrompt), "", "", Pending)
  }

  /** `'next'` puts the new track immediately after the playing track, or first if it is not in the list. */
  lemma SteerNextPlacement(ts: seq<Audiocast>, current: Option<string>, x: Audiocast)
    ensures var k, r := FindIndex(ts, current), InsertAt(ts, InsertIndex(ts, current, Next), x);
      && (k >= 0 ==> r[k] == ts[k] && r[k + 1] == x && current == Some(r[k].id))
      && (k < 0 ==> r[0] == x && r[1..] == ts)
  {
  }

  /** `'last'` appends the new track. */
  lemma SteerLastPlacement(ts: seq<Audiocast>, current: Option<string>, x: Audiocast)
    ensures InsertAt(ts, InsertIndex(ts, current, Last), x) == ts + [x]
  {
    assert ts[..|ts|] == ts;
  }

  /** The steering example: with A playing in [A, B, C], 'next' gives [A, NEW, B, C] and 'last' [A, B, C, NEW]. */
  lemma SteerExample(a: Audiocast, b: Audiocast, c: Audiocast, x: Audiocast)
    requires DistinctIds([a, b, c])
    ensures InsertAt([a, b, c], InsertIndex([a, b, c], Some(a.id), Next), x) == [a, x, b, c]
    ensures InsertAt([a, b, c], InsertIndex([a, b, c], Some(a.id), Last), x) == [a, b, c, x]
  {
    assert FindIndex([a, b, c], Some(a.id)) == 0;
  }
}
