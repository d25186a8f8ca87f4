/** The content script of one Meet tab (content.js): its own duplicate-free
    transcript, the offset up to which it has pushed lines to the background,
    the capturing flag with its observer, and the capped counter of attempts
    to find the caption container. What the page shows (whether a caption
    container exists, the text of an added node, the title candidates) and
    whether a message was acknowledged arrive as parameters. */
module Content {
  import opened Wrappers
  import opened Text
  import opened Transcript
  import opened Storage
  import opened Export

  const MaxInitializationAttempts: nat := 10
  const MeetBrand := "Google Meet"

  /** The counter after one more failed search for the container
      (content.js:202-207). */
  function NextAttempts(attempts: nat): nat
  {
    if attempts < MaxInitializationAttempts then attempts + 1 else attempts
  }

  /** The counter after `n` failed searches in a row, starting from
      `attempts`. */
  function AttemptsAfter(attempts: nat, n: nat): nat
    decreases n
  {
    if n == 0 then attempts else AttemptsAfter(NextAttempts(attempts), n - 1)
  }

  /** How many retries `n` failed searches in a row schedule, starting from
      counter value `attempts`: one for every failure that raises the
      counter. */
  function RetriesScheduled(attempts: nat, n: nat): nat
    decreases n
  {
    if n == 0 then 0
    else (if NextAttempts(attempts) > attempts then 1 else 0) + RetriesScheduled(NextAttempts(attempts), n - 1)
  }

  /** The retries scheduled are exactly the rise of the counter, which
      never passes 10. */
  lemma {:induction false} RetriesCountRise(attempts: nat, n: nat)
    requires attempts <= MaxInitializationAttempts
    ensures AttemptsAfter(attempts, n) == attempts + RetriesScheduled(attempts, n)
    ensures AttemptsAfter(attempts, n) <= MaxInitializationAttempts
    decreases n
  {
    if n > 0 {
      RetriesCountRise(NextAttempts(attempts), n - 1);
    }
  }

  /** The retry is bounded: from counter `attempts`, a run of failures
      schedules at most `10 - attempts` retries, and never more than 10. */
  lemma {:induction false} RetriesBounded(attempts: nat, n: nat)
    requires attempts <= MaxInitializationAttempts
    ensures RetriesScheduled(attempts, n) == if n <= MaxInitializationAttempts - attempts then n else MaxInitializationAttempts - attempts
    ensures RetriesScheduled(attempts, n) <= MaxInitializationAttempts
    decreases n
  {
    if n > 0 {
      RetriesBounded(NextAttempts(attempts), n - 1);
    }
  }

  /** What `sendTranscriptUpdate` sends: the lines after the offset, and
      nothing unless the transcript is longer than the offset. */
  function Unsent(transcript: seq<string>, offset: nat): (r: Option<seq<string>>)
    ensures r.Some? <==> |transcript| > offset
    ensures r.Some? ==> r.value != [] && transcript == transcript[..offset] + r.value
  {
    if |transcript| > offset then Some(transcript[offset..]) else None
  }

  /** A title candidate is taken when it is not blank after trimming and does
      not mention Google Meet (content.js:26). */
  predicate TitleUsable(candidate: string)
  {
    Trim(candidate) != "" && !Contains(candidate, MeetBrand)
  }

  /** The trimmed text of the first usable candidate. */
  function FirstUsableTitle(candidates: seq<string>): (r: Option<string>)
    ensures r.None? <==> forall k :: 0 <= k < |candidates| ==> !TitleUsable(candidates[k])
    ensures r.Some? ==> exists k :: 0 <= k < |candidates| && TitleUsable(candidates[k]) && r.value == Trim(candidates[k])
                                    && forall j :: 0 <= j < k ==> !TitleUsable(candidates[j])
  {
    if candidates == [] then None
    else if TitleUsable(candidates[0]) then Some(Trim(candidates[0]))
    else
      var r := FirstUsableTitle(candidates[1..]);
      assert forall j :: 1 <= j < |candidates| ==> candidates[j] == candidates[1..][j - 1];
      r
  }

  /** The meeting title `getMeetingTitle` leaves in `meetingTitle`: the first
      usable candidate, else the title found earlier, else a dated default. */
  function ResolveTitle(previous: string, candidates: seq<string>, today: string): string
  {
    var found := match FirstUsableTitle(candidates)
      case Some(t) => t
      case None => previous;
    if found == "" || Contains(found, MeetBrand) then "Google Meet - " + today else found
  }

  /** The resolved title is never empty, and a usable candidate always wins
      over the earlier title and the default. */
  lemma ResolveTitleChoice(previous: string, candidates: seq<string>, today: string)
    ensures ResolveTitle(previous, candidates, today) != ""
    ensures FirstUsableTitle(candidates).Some? ==> ResolveTitle(previous, candidates, today) == FirstUsableTitle(candidates).value
    ensures FirstUsableTitle(candidates).None? && previous != "" && !Contains(previous, MeetBrand)
            ==> ResolveTitle(previous, candidates, today) == previous
    ensures FirstUsableTitle(candidates).None? && (previous == "" || Contains(previous, MeetBrand))
            ==> ResolveTitle(previous, candidates, today) == "Google Meet - " + today
  {
    var fallback := "Google Meet - " + today;
    assert fallback[0] == 'G';
    match FirstUsableTitle(candidates)
    case Some(t) =>
      var k :| 0 <= k < |candidates| && TitleUsable(candidates[k]) && t == Trim(candidates[k]);
      TrimSplits(candidates[k]);
      var i, j :| 0 <= i <= j <= |candidates[k]| && t == candidates[k][i..j];
      NotContainsInfix(candidates[k], i, j, MeetBrand);
    case None =>
  }

  /** A piece of a string without `sub` holds no `sub` either. */
  lemma NotContainsInfix(s: string, i: nat, j: nat, sub: string)
    requires i <= j <= |s| && !Contains(s, sub)
    ensures !Contains(s[i..j], sub)
  {
    forall k: nat | k <= |s[i..j]| ensures !OccursAt(s[i..j], sub, k) {
      if k + |sub| <= j - i {
        var inner, outer := s[i..j][k..k + |sub|], s[i + k..i + k + |sub|];
        forall m | 0 <= m < |sub| ensures inner[m] == outer[m] {
          assert s[i..j][k + m] == s[i + k + m];
        }
        assert inner == outer;
        assert !OccursAt(s, sub, i + k);
      }
    }
  }

  /** The answer to the `getGlobalTranscript` request `saveTranscript` makes. */
  datatype TranscriptAnswer = RequestFailed | Answered(transcript: Option<seq<string>>)

  /** `response?.transcript || transcript`: the background's transcript when
      the reply carries one, even an empty one, else the local transcript. */
  function ExportLines(answer: TranscriptAnswer, local: seq<string>): seq<string>
  {
    if answer.Answered? && answer.transcript.Some? then answer.transcript.value else local
  }

  class CaptureClient {
    var transcript: seq<string>
    var isCapturing: bool
    /** Whether a caption observer is installed (`observer !== null`). */
    var observing: bool
    var meetingTitle: string
    var initializationAttempts: nat
    var lastTranscriptLength: nat
    const storage: LocalStore

    /** The object invariant: the counter is capped and an observer is
        installed exactly while capturing. */
    ghost predicate Valid()
      reads this
    {
      initializationAttempts <= MaxInitializationAttempts && observing == isCapturing
    }

    /** The offset points into the transcript. */
    ghost predicate OffsetInRange()
      reads this
    {
      lastTranscriptLength <= |transcript|
    }

    /** The module-level state when the script loads (content.js:1-7). */
    constructor (storage: LocalStore)
      ensures Valid() && OffsetInRange()
      ensures this.storage == storage
      ensures transcript == [] && !isCapturing && meetingTitle == ""
      ensures initializationAttempts == 0 && lastTranscriptLength == 0
    {
      this.storage := storage;
      transcript := [];
      isCapturing := false;
      observing := false;
      meetingTitle := "";
      initializationAttempts := 0;
      lastTranscriptLength := 0;
    }

    /** The storage load in `init` (content.js:292-302): the stored
        transcript becomes the local one and counts as already sent; a true
        stored flag asks for `startCapturing` after a delay (`resume`). */
    method Restore() returns (resume: bool)
      requires Valid()
      modifies this
      ensures Valid() && OffsetInRange()
      ensures transcript == storage.transcript && lastTranscriptLength == |transcript|
      ensures resume == storage.isCapturing
      ensures isCapturing == old(isCapturing) && observing == old(observing)
      ensures meetingTitle == old(meetingTitle) && initializationAttempts == old(initializationAttempts)
    {
      transcript := storage.transcript;
      lastTranscriptLength := |transcript|;
      resume := storage.isCapturing;
    }

    /** `sendTranscriptUpdate` with the send and its acknowledgement taken as
        one step: the unsent lines go out when there are any, and the offset
        moves to the end only when `delivered`. */
    method SendTranscriptUpdate(delivered: bool) returns (sent: Option<seq<string>>)
      modifies this`lastTranscriptLength
      ensures sent == Unsent(transcript, old(lastTranscriptLength))
      ensures lastTranscriptLength == if sent.Some? && delivered then |transcript| else old(lastTranscriptLength)
    {
      sent := None;
      if |transcript| > lastTranscriptLength {
        sent := Some(transcript[lastTranscriptLength..]);
        if delivered {
          lastTranscriptLength := |transcript|;
        }
      }
    }

    /** The caption observer's rule for one added node (content.js:224-246):
        its text is trimmed, appended only when non-empty and new, stored,
        and then pushed with `SendTranscriptUpdate`. */
    method ObserveText(raw: string, delivered: bool) returns (appended: bool, sent: Option<seq<string>>)
      requires Valid() && observing
      modifies this, storage
      ensures Valid()
      ensures appended == (Trim(raw) != "" && Trim(raw) !in old(transcript))
      ensures transcript == if appended then old(transcript) + [Trim(raw)] else old(transcript)
      ensures NoDups(old(transcript)) ==> NoDups(transcript)
      ensures storage.transcript == if appended then transcript else old(storage.transcript)
      ensures sent == if appended then Unsent(transcript, old(lastTranscriptLength)) else None
      ensures lastTranscriptLength == if sent.Some? && delivered then |transcript| else old(lastTranscriptLength)
      ensures old(OffsetInRange()) ==> OffsetInRange()
      ensures isCapturing == old(isCapturing) && observing == old(observing)
      ensures meetingTitle == old(meetingTitle) && initializationAttempts == old(initializationAttempts)
      ensures storage.isCapturing == old(storage.isCapturing) && storage.activeTabs == old(storage.activeTabs)
    {
      var text := Trim(raw);
      appended := false;
      sent := None;
      if text != "" && text !in transcript {
        transcript := transcript + [text];
        storage.transcript := transcript;
        appended := true;
        sent := SendTranscriptUpdate(delivered);
      }
    }

    /** `startCapturing`, with the container search as `containerFound`.
        Already capturing: true, nothing changes. No container: false, and
        the counter goes up (scheduling a retry) only while below 10. Found:
        capturing starts and the counter resets. */
    method StartCapturing(containerFound: bool) returns (started: bool, retryScheduled: bool)
      requires Valid()
      modifies this, storage
      ensures Valid()
      ensures old(isCapturing) ==> started && !retryScheduled && isCapturing
                                   && initializationAttempts == old(initializationAttempts)
                                   && storage.isCapturing == old(storage.isCapturing)
      ensures !old(isCapturing) && !containerFound ==>
                !started && !isCapturing
                && retryScheduled == (old(initializationAttempts) < MaxInitializationAttempts)
                && initializationAttempts == NextAttempts(old(initializationAttempts))
                && storage.isCapturing == old(storage.isCapturing)
      ensures !old(isCapturing) && containerFound ==>
                started && !retryScheduled && isCapturing && initializationAttempts == 0 && storage.isCapturing
      ensures transcript == old(transcript) && lastTranscriptLength == old(lastTranscriptLength)
      ensures meetingTitle == old(meetingTitle)
      ensures storage.transcript == old(storage.transcript) && storage.activeTabs == old(storage.activeTabs)
    {
      retryScheduled := false;
      if isCapturing {
        return true, false;
      }
      if !containerFound {
        if initializationAttempts < MaxInitializationAttempts {
          initializationAttempts := initializationAttempts + 1;
          retryScheduled := true;
        }
        return false, retryScheduled;
      }
      isCapturing := true;
      initializationAttempts := 0;
      storage.isCapturing := true;
      observing := true;
      started := true;
    }

    /** `stopCapturing`: the observer is removed and capturing is off. */
    method StopCapturing() returns (stopped: bool)
      requires Valid()
      modifies this, storage
      ensures Valid()
      ensures stopped && !isCapturing && !observing && !storage.isCapturing
      ensures transcript == old(transcript) && lastTranscriptLength == old(lastTranscriptLength)
      ensures meetingTitle == old(meetingTitle) && initializationAttempts == old(initializationAttempts)
      ensures storage.transcript == old(storage.transcript) && storage.activeTabs == old(storage.activeTabs)
    {
      observing := false;
      isCapturing := false;
      storage.isCapturing := false;
      stopped := true;
    }

    /** `toggleCapturing`: stop when capturing, else try to start; returns the
        resulting flag. */
    method ToggleCapturing(containerFound: bool) returns (capturing: bool)
      requires Valid()
      modifies this, storage
      ensures Valid()
      ensures capturing == isCapturing
      ensures capturing == (!old(isCapturing) && containerFound)
      ensures old(isCapturing) ==> initializationAttempts == old(initializationAttempts)
      ensures !old(isCapturing) && containerFound ==> initializationAttempts == 0
      ensures !old(isCapturing) && !containerFound ==> initializationAttempts == NextAttempts(old(initializationAttempts))
      ensures storage.isCapturing == if old(isCapturing) then false else if containerFound then true else old(storage.isCapturing)
      ensures transcript == old(transcript) && lastTranscriptLength == old(lastTranscriptLength)
      ensures meetingTitle == old(meetingTitle)
      ensures storage.transcript == old(storage.transcript) && storage.activeTabs == old(storage.activeTabs)
    {
      if isCapturing {
        var _ := StopCapturing();
      } else {
        var _, _ := StartCapturing(containerFound);
      }
      capturing := isCapturing;
    }

    /** The `clearTranscript` message (content.js:391-397): transcript and
        offset both go back to the start. The background is then told to
        clear as well. */
    method ClearTranscript() returns (success: bool)
      requires Valid()
      modifies this, storage
      ensures Valid() && OffsetInRange()
      ensures success
      ensures transcript == [] && lastTranscriptLength == 0 && storage.transcript == []
      ensures isCapturing == old(isCapturing) && observing == old(observing)
      ensures meetingTitle == old(meetingTitle) && initializationAttempts == old(initializationAttempts)
      ensures storage.isCapturing == old(storage.isCapturing) && storage.activeTabs == old(storage.activeTabs)
    {
      transcript := [];
      lastTranscriptLength := 0;
      storage.transcript := [];
      success := true;
    }

    /** The Ctrl+Shift+C shortcut as written (content.js:328-337): only the
        transcript is reset; the offset keeps its value. */
    method ClearViaShortcut()
      requires Valid()
      modifies this, storage
      ensures Valid()
      ensures transcript == [] && storage.transcript == []
      ensures lastTranscriptLength == old(lastTranscriptLength)
      ensures old(lastTranscriptLength) > 0 ==> !OffsetInRange()
      ensures isCapturing == old(isCapturing) && observing == old(observing)
      ensures meetingTitle == old(meetingTitle) && initializationAttempts == old(initializationAttempts)
      ensures storage.isCapturing == old(storage.isCapturing) && storage.activeTabs == old(storage.activeTabs)
    {
      transcript := [];
      storage.transcript := [];
    }

    /** The Ctrl+Shift+C shortcut as the `clearTranscript` message does it:
        the offset is reset with the transcript, so it stays in range. */
    method ClearViaShortcutCorrected()
      requires Valid()
      modifies this, storage
      ensures Valid() && OffsetInRange()
      ensures transcript == [] && storage.transcript == [] && lastTranscriptLength == 0
      ensures isCapturing == old(isCapturing) && observing == old(observing)
      ensures meetingTitle == old(meetingTitle) && initializationAttempts == old(initializationAttempts)
      ensures storage.isCapturing == old(storage.isCapturing) && storage.activeTabs == old(storage.activeTabs)
    {
      transcript := [];
      lastTranscriptLength := 0;
      storage.transcript := [];
    }

    /** `getMeetingTitle`, with the texts of the elements the title selectors
        matched given in selector order, and today's date as text. The raw
        title is kept in `meetingTitle`; the sanitised one is returned. */
    method GetMeetingTitle(candidates: seq<string>, today: string) returns (title: string)
      modifies this`meetingTitle
      ensures meetingTitle == ResolveTitle(old(meetingTitle), candidates, today)
      ensures title == Sanitize(meetingTitle)
    {
      var i := 0;
      while i < |candidates|
        invariant 0 <= i <= |candidates|
        invariant forall j :: 0 <= j < i ==> !TitleUsable(candidates[j])
        invariant meetingTitle == old(meetingTitle)
      {
        if Trim(candidates[i]) != "" && !Contains(candidates[i], MeetBrand) {
          meetingTitle := Trim(candidates[i]);
          assert FirstUsableTitle(candidates) == Some(meetingTitle);
          break;
        }
        i := i + 1;
      }
      if meetingTitle == "" || Contains(meetingTitle, MeetBrand) {
        meetingTitle := "Google Meet - " + today;
      }
      var kept := KeepTitleChars(meetingTitle);
      title := if |kept| <= MaxTitleLength then kept else kept[..MaxTitleLength];
    }

    /** `saveTranscript`: nothing when the request fails or there are no
        lines (the title is then not looked up), otherwise the title is
        resolved and the file rendered; an unknown format gives nothing. */
    method SaveTranscript(format: string, answer: TranscriptAnswer, candidates: seq<string>, today: string, clock: Clock)
      returns (file: Option<ExportFile>)
      modifies this`meetingTitle
      ensures answer.RequestFailed? || ExportLines(answer, transcript) == [] ==>
                file.None? && meetingTitle == old(meetingTitle)
      ensures answer.Answered? && ExportLines(answer, transcript) != [] ==>
                meetingTitle == ResolveTitle(old(meetingTitle), candidates, today)
                && file == Render(format, ExportLines(answer, transcript), meetingTitle, Sanitize(meetingTitle), clock)
    {
      if answer.RequestFailed? {
        return None;
      }
      var lines := ExportLines(answer, transcript);
      if |lines| == 0 {
        return None;
      }
      var title := GetMeetingTitle(candidates, today);
      var name := Filename(title, FileTimestamp(clock.iso), format);
      var body: Body;
      if format == "txt" {
        body := TextBody(TxtBody(meetingTitle, clock.localeDateTime, lines));
      } else if format == "json" {
        body := JsonFile(JsonBody(meetingTitle, clock.iso, lines));
      } else if format == "csv" {
        var csv := BuildCsv(lines, clock.lineTime);
        body := CsvBody(csv);
      } else if format == "html" {
        body := HtmlPage(meetingTitle, clock.localeDateTime, lines);
      } else {
        return None;
      }
      file := Some(ExportFile(name, body));
    }
  }
}
