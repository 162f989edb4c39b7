/**
 * Result shaping around the content generation service (services/gemini.ts). The service
 * itself, `JSON.parse`, `atob` and `URL.createObjectURL` are outside the model: a call's
 * outcome is a `Reply`, and parsing and base64 decoding are function parameters.
 */
module Gemini {
  import opened Wrappers
  import opened Text
  import Wav

  /** What an awaited service call produced: a value, or an exception. */
  datatype Reply<+T> = Answered(value: T) | Threw

  /** One planned track of an outline. */
  datatype OutlineTrack = OutlineTrack(title: string, description: string)

  /** `SpinOutline`: creative title, cover image prompt and the planned tracks, in order. */
  datatype SpinOutline = SpinOutline(title: string, coverImagePrompt: string, tracks: seq<OutlineTrack>)

  /** The parsed outline object; a missing or non-string property is `None`. */
  datatype OutlineJson = OutlineJson(
    title: Option<string>,
    coverImagePrompt: Option<string>,
    tracks: Option<seq<OutlineTrack>>)

  /** One part of a response's first candidate; `inlineData` holds its base64 `data`. */
  datatype Part = Part(inlineData: Option<string>)

  /** Why `generateTrackAudio` failed. */
  datatype AudioError =
    | ServiceFailed   // the script or speech request threw
    | NoAudioData    // the speech response had no (or empty) inline data in its first part
    | BadBase64      // `atob` rejected the audio data

  /** JavaScript's `p || d` for an optional string property. */
  function PropertyOr(p: Option<string>, d: string): (r: string)
    ensures p.Some? && p.value != "" ==> r == p.value
    ensures p.None? || p.value == "" ==> r == d
  {
    if p.Some? then OrElse(p.value, d) else d
  }

  /** Fence removal on the untrimmed text: a leading json fence and the blanks after it, else a leading plain
    fence and the blanks after it, then a closing fence at the very end. */
  function StripFences(text: string): (r: string)
    ensures |r| <= |text|
    ensures !StartsWith(text, "```") && !EndsWith(text, "```") ==> r == text
  {
    var a := if StartsWith(text, "```json") then TrimStart(text[7..]) else text;
    var b := if StartsWith(a, "```") then TrimStart(a[3..]) else a;
    if EndsWith(b, "```") then b[..|b| - 3] else b
  }

  /** The text handed to `JSON.parse`: the response text or "{}", fences stripped when its trimmed form opens one. */
  function OutlineText(responseText: string): (r: string)
    ensures !StartsWith(Trim(OrElse(responseText, "{}")), "```") ==> r == OrElse(responseText, "{}")
  {
    var t := OrElse(responseText, "{}");
    if StartsWith(Trim(t), "```") then StripFences(t) else t
  }

  /** `generateSpinOutline` after the client is built: no outcome fails; it falls back to a one-track outline on any error. */
  function GenerateSpinOutline(topic: string, response: Reply<string>, parse: string -> Option<OutlineJson>): (r: SpinOutline)
    ensures r.coverImagePrompt != ""
    ensures topic != "" ==> r.title != ""
    ensures response.Threw? || parse(OutlineText(response.value)).None? ==>
      && r.title == topic
      && r.coverImagePrompt == "Abstract art representing " + topic
      && r.tracks == [OutlineTrack("Introduction", "Intro to " + topic)]
    ensures response.Answered? && parse(OutlineText(response.value)).Some? ==>
      var json := parse(OutlineText(response.value)).value;
      && r.title == PropertyOr(json.title, topic)
      && r.coverImagePrompt == PropertyOr(json.coverImagePrompt, "Abstract cover art for " + topic)
      && r.tracks == (if json.tracks.Some? then json.tracks.value else [])
  {
    var parsed := if response.Answered? then parse(OutlineText(response.value)) else None;
    match parsed
    case None =>
      SpinOutline(topic, "Abstract art representing " + topic, [OutlineTrack("Introduction", "Intro to " + topic)])
    case Some(json) =>
      SpinOutline(
        PropertyOr(json.title, topic),
        PropertyOr(json.coverImagePrompt, "Abstract cover art for " + topic),
        if json.tracks.Some? then json.tracks.value else [])
  }

  /** A leading run of whitespace is exactly what `TrimStart` (and a leading `\s*`) removes. */
  lemma {:induction false} DropSpaces(ws: string, rest: string)
    requires forall i :: 0 <= i < |ws| ==> IsSpace(ws[i])
    requires rest != [] && !IsSpace(rest[0])
    ensures TrimStart(ws + rest) == rest
  {
    if ws != [] {
      assert (ws + rest)[1..] == ws[1..] + rest;
      DropSpaces(ws[1..], rest);
    }
  }

  /** Trimming keeps a string whose first and last characters are not whitespace. */
  lemma TrimKeeps(t: string)
    requires t != [] && !IsSpace(t[0]) && !IsSpace(t[|t| - 1])
    ensures Trim(t) == t
  {
    assert TrimStart(t) == t;
  }

  /** A fenced JSON reply loses exactly its fence: the body is what gets parsed. */
  lemma {:induction false} FencedOutlineText(ws: string, body: string)
    requires forall i :: 0 <= i < |ws| ==> IsSpace(ws[i])
    requires body != [] && !IsSpace(body[0]) && body[0] != '`'
    ensures OutlineText("```json" + ws + body + "```") == body
  {
    var t := "```json" + ws + body + "```";
    var rest := body + "```";
    assert OrElse(t, "{}") == t;
    TrimKeeps(t);
    assert StartsWith(Trim(t), "```") by {
      assert t[..3] == "```";
    }
    assert StartsWith(t, "```json") by {
      assert t[..7] == "```json";
    }
    assert t[7..] == ws + rest;
    assert rest[0] == body[0];
    DropSpaces(ws, rest);
    var a := TrimStart(t[7..]);
    assert a == rest;
    assert !StartsWith(a, "```") by {
      assert a[0] == body[0];
    }
    assert EndsWith(a, "```") by {
      assert a[|a| - 3..] == "```";
    }
    assert a[..|a| - 3] == body;
    assert StripFences(t) == body;
  }

  /** A reply fenced without a language tag also loses exactly its fence (a body that does not
      start with `j` cannot be mistaken for the `json` tag). */
  lemma {:induction false} PlainFencedOutlineText(ws: string, body: string)
    requires forall i :: 0 <= i < |ws| ==> IsSpace(ws[i])
    requires body != [] && !IsSpace(body[0]) && body[0] != 'j'
    ensures OutlineText("```" + ws + body + "```") == body
  {
    var t := "```" + ws + body + "```";
    var rest := body + "```";
    assert OrElse(t, "{}") == t;
    TrimKeeps(t);
    assert StartsWith(t, "```") by {
      assert t[..3] == "```";
    }
    assert !StartsWith(t, "```json") by {
      if ws == [] {
        assert t[3] == body[0];
      } else {
        assert t[3] == ws[0];
      }
    }
    assert t[3..] == ws + rest;
    assert rest[0] == body[0];
    DropSpaces(ws, rest);
    var b := TrimStart(t[3..]);
    assert b == rest;
    assert EndsWith(b, "```") by {
      assert b[|b| - 3..] == "```";
    }
    assert b[..|b| - 3] == body;
    assert StripFences(t) == body;
  }

  /** Trimming keeps an opening fence at the very start. */
  lemma TrimOpensFence(t: string)
    requires |t| >= 3 && t[..3] == "```"
    ensures StartsWith(Trim(t), "```")
  {
    assert t[0] == '`' && t[2] == '`';
    assert TrimStart(t) == t;
    var e := TrimEnd(t);
    assert |e| >= 3 by {
      if |e| < 3 {
        assert IsSpace(t[2]);
      }
    }
    assert e[..3] == t[..3];
  }

  /** A newline after the closing fence defeats the end-anchored pattern: the opening fence is removed
      but the closing one stays, so the parser sees the body followed by the fence. */
  lemma {:induction false} TrailingNewlineFenceKept(ws: string, body: string)
    requires forall i :: 0 <= i < |ws| ==> IsSpace(ws[i])
    requires body != [] && !IsSpace(body[0]) && body[0] != '`'
    ensures OutlineText("```json" + ws + body + "```\n") == body + "```\n"
  {
    var t := "```json" + ws + body + "```\n";
    var rest := body + "```\n";
    assert OrElse(t, "{}") == t;
    assert t[..3] == "```";
    TrimOpensFence(t);
    assert StartsWith(t, "```json") by {
      assert t[..7] == "```json";
    }
    assert t[7..] == ws + rest;
    assert rest[0] == body[0];
    DropSpaces(ws, rest);
    var a := TrimStart(t[7..]);
    assert a == rest;
    assert !StartsWith(a, "```") by {
      assert a[0] == body[0];
    }
    assert !EndsWith(a, "```") by {
      assert a[|a| - 1] == '\n';
    }
    assert StripFences(t) == rest;
  }

  /** Leading whitespace before a fence passes the trimmed test but defeats the anchored patterns:
      only the closing fence is removed, so the parser sees the opening fence. */
  lemma IndentedFenceKept(body: string)
    ensures OutlineText(" ```json" + body + "```") == " ```json" + body
  {
    var t := " ```json" + body + "```";
    var t1 := "```json" + body + "```";
    assert OrElse(t, "{}") == t;
    assert t[1..] == t1;
    TrimKeeps(t1);
    assert TrimStart(t) == TrimStart(t1);
    assert StartsWith(Trim(t), "```") by {
      assert t1[..3] == "```";
    }
    assert !StartsWith(t, "```json") && !StartsWith(t, "```") by {
      assert t[0] == ' ';
    }
    assert EndsWith(t, "```") by {
      assert t[|t| - 3..] == "```";
    }
    assert t[..|t| - 3] == " ```json" + body;
    assert StripFences(t) == " ```json" + body;
  }

  /** The script sent to speech synthesis: the generated text, or a one-line fallback when it is empty. */
  function ScriptText(title: string, text: string): (r: string)
    ensures r != ""
    ensures text != "" ==> r == text
    ensures text == "" ==> r == "Welcome to this track about " + title + "."
  {
    OrElse(text, "Welcome to this track about " + title + ".")
  }

  /** The base64 audio of the speech response: the inline data of the first part of the first candidate,
      when that part exists and its data is non-empty. */
  function SpeechData(parts: seq<Part>): (r: Option<string>)
    ensures r.Some? <==> |parts| > 0 && parts[0].inlineData.Some? && parts[0].inlineData.value != ""
    ensures r.Some? ==> r.value == parts[0].inlineData.value
  {
    if |parts| > 0 && parts[0].inlineData.Some? && parts[0].inlineData.value != "" then parts[0].inlineData else None
  }

  /**
   * `generateTrackAudio`: writes a script, speaks it, and wraps the decoded speech in a
   * 24 kHz mono WAV container. `speak` stands for the speech request on a given script and
   * `atob` for base64 decoding (`None` when it throws). Any exception fails the call.
   */
  method GenerateTrackAudio(
    title: string, script: Reply<string>, speak: string -> Reply<seq<Part>>, atob: string -> Option<string>)
    returns (r: Result<seq<Wav.byte>, AudioError>)
    ensures script.Threw? ==> r == Failure(ServiceFailed)
    ensures script.Answered? ==>
      var speech := speak(ScriptText(title, script.value));
      && (speech.Threw? ==> r == Failure(ServiceFailed))
      && (speech.Answered? && SpeechData(speech.value).None? ==> r == Failure(NoAudioData))
      && (speech.Answered? && SpeechData(speech.value).Some? ==>
            match atob(SpeechData(speech.value).value)
            case None => r == Failure(BadBase64)
            case Some(binary) => r == Success(Wav.WavFile(Wav.CharCodes(binary), 24000, 1)))
  {
    if script.Threw? {
      return Failure(ServiceFailed);
    }
    var scriptText := ScriptText(title, script.value);
    var speech := speak(scriptText);
    if speech.Threw? {
      return Failure(ServiceFailed);
    }
    var base64Audio := SpeechData(speech.value);
    if base64Audio.None? {
      return Failure(NoAudioData);
    }
    var binary := atob(base64Audio.value);
    if binary.None? {
      return Failure(BadBase64);
    }
    var rawPcm := Wav.DecodeBase64(binary.value);
    var wavBuffer := Wav.AddWavHeader(rawPcm, 24000, 1);
    r := Success(wavBuffer[..]);
  }

  /** Whatever succeeds is a 24 kHz, mono, 16-bit PCM container around the decoded speech. */
  lemma TrackAudioFormat(pcm: seq<Wav.byte>)
    ensures var w := Wav.WavFile(pcm, 24000, 1);
      && Wav.ReadLE16(w, 20) == 1 && Wav.ReadLE16(w, 22) == 1 && Wav.ReadLE32(w, 24) == 24000
      && Wav.ReadLE32(w, 28) == 48000 && Wav.ReadLE16(w, 32) == 2 && Wav.ReadLE16(w, 34) == 16
      && w[Wav.HeaderSize..] == pcm
  {
    Wav.WavFormat(pcm, 24000, 1);
    Wav.WavSizes(pcm, 24000, 1);
  }

  /** The image URL built from a part's base64 data. */
  function DataUrl(data: string): (r: string)
    ensures StartsWith(r, "data:image/png;base64,") && r[22..] == data
  {
    "data:image/png;base64," + data
  }

  /** Part `k` is the first part that carries inline data. */
  ghost predicate FirstInline(parts: seq<Part>, k: int) {
    0 <= k < |parts| && parts[k].inlineData.Some? && forall j :: 0 <= j < k ==> parts[j].inlineData.None?
  }

  /** `generateImage`: a data URL for the first part with inline data; `None` without one or on error. */
  method GenerateImage(response: Reply<seq<Part>>) returns (url: Option<string>)
    ensures response.Threw? ==> url == None
    ensures response.Answered? ==>
      (url.Some? <==> exists k :: 0 <= k < |response.value| && response.value[k].inlineData.Some?)
    ensures url.Some? ==>
      exists k :: FirstInline(response.value, k) && url.value == DataUrl(response.value[k].inlineData.value)
  {
    if response.Threw? {
      return None;
    }
    var parts := response.value;
    var i := 0;
    while i < |parts|
      invariant 0 <= i <= |parts|
      invariant forall j :: 0 <= j < i ==> parts[j].inlineData.None?
    {
      if parts[i].inlineData.Some? {
        assert FirstInline(parts, i);
        return Some(DataUrl(parts[i].inlineData.value));
      }
      i := i + 1;
    }
    return None;
  }
}
