/** How a content script and the background worker meet: the lines a tab
    pushes are merged into the global transcript, and both clear paths reach
    the background too. Message delivery is a direct, atomic call. */
module Sync {
  import opened Wrappers
  import opened Transcript
  import opened Storage
  import Background
  import Content
  import Text

  predicate AllNonEmpty(lines: seq<string>)
  {
    forall i :: 0 <= i < |lines| ==> lines[i] != ""
  }

  /** The offset is in range and every local line before it is in the
      global transcript: what the offset is meant to record. */
  predicate Synced(local: seq<string>, offset: nat, global: seq<string>)
  {
    offset <= |local| && forall i :: 0 <= i < offset ==> local[i] in global
  }

  /** The global transcript after the background merges what the tab sends. */
  function AfterSend(local: seq<string>, offset: nat, global: seq<string>): seq<string>
  {
    match Content.Unsent(local, offset)
    case Some(batch) => Merge(global, ToPayload(batch).items)
    case None => global
  }

  /** A delivered send brings every local line into the global transcript,
      keeps the old global transcript as a prefix, and introduces no
      duplicate into it. */
  lemma SendSyncsAll(local: seq<string>, offset: nat, global: seq<string>)
    requires Synced(local, offset, global) && AllNonEmpty(local)
    ensures Synced(local, |local|, AfterSend(local, offset, global))
    ensures global <= AfterSend(local, offset, global)
    ensures NoDups(global) ==> NoDups(AfterSend(local, offset, global))
  {
    match Content.Unsent(local, offset)
    case None =>
    case Some(batch) =>
      var items := ToPayload(batch).items;
      MergeMembers(global, items);
      MergeExtends(global, items);
      if NoDups(global) {
        MergeNoDups(global, items);
      }
      forall i | offset <= i < |local| ensures local[i] in Merge(global, items) {
        assert items[i - offset] == Str(local[i]);
      }
  }

  /** Lines merged from other tabs never undo what this tab has synced. */
  lemma OtherTabKeepsSynced(local: seq<string>, offset: nat, global: seq<string>, batch: seq<Value>)
    requires Synced(local, offset, global)
    ensures Synced(local, offset, Merge(global, batch))
  {
    MergeMembers(global, batch);
  }

  /** A line observed locally does not disturb what is already synced. */
  lemma ObserveKeepsSynced(local: seq<string>, offset: nat, global: seq<string>, line: string)
    requires Synced(local, offset, global)
    ensures Synced(local + [line], offset, global)
  {
    forall i | 0 <= i < offset ensures (local + [line])[i] in global {
      assert (local + [line])[i] == local[i];
    }
  }

  /** After the shortcut clear as written, the offset `offset` outlives the
      transcript: while the new transcript is no longer than it, nothing is
      sent, and once it is longer only the lines past it are; the first
      `offset` new lines never reach the background. */
  lemma ShortcutClearSkipsLines(later: seq<string>, offset: nat)
    requires NoDups(later)
    ensures |later| <= offset ==> Content.Unsent(later, offset).None?
    ensures forall i :: 0 <= i < |later| && i < offset ==>
              Content.Unsent(later, offset).None? || later[i] !in Content.Unsent(later, offset).value
  {
    forall i | 0 <= i < |later| && i < offset && Content.Unsent(later, offset).Some?
      ensures later[i] !in Content.Unsent(later, offset).value
    {
      var sent := Content.Unsent(later, offset).value;
      assert sent == later[offset..];
    }
  }

  /** A caption node reaches the tab's observer, which pushes the unsent
      lines; when the push is delivered the background merges them. */
  method DeliverCaption(client: Content.CaptureClient, agg: Background.Aggregator, raw: string, delivered: bool)
    returns (appended: bool)
    requires client.Valid() && client.observing && client.storage == agg.storage
    modifies client, agg, client.storage
    ensures client.Valid()
    ensures appended == (Text.Trim(raw) != "" && Text.Trim(raw) !in old(client.transcript))
    ensures client.transcript == if appended then old(client.transcript) + [Text.Trim(raw)] else old(client.transcript)
    ensures appended && delivered ==>
              agg.globalTranscript == AfterSend(client.transcript, old(client.lastTranscriptLength), old(agg.globalTranscript))
    ensures !(appended && delivered) ==> agg.globalTranscript == old(agg.globalTranscript)
    ensures appended && delivered && Content.Unsent(client.transcript, old(client.lastTranscriptLength)).Some? ==>
              client.lastTranscriptLength == |client.transcript|
    ensures !(appended && delivered && Content.Unsent(client.transcript, old(client.lastTranscriptLength)).Some?) ==>
              client.lastTranscriptLength == old(client.lastTranscriptLength)
    ensures old(Synced(client.transcript, client.lastTranscriptLength, agg.globalTranscript)) && AllNonEmpty(old(client.transcript)) ==>
              Synced(client.transcript, client.lastTranscriptLength, agg.globalTranscript)
    ensures NoDups(old(agg.globalTranscript)) ==> NoDups(agg.globalTranscript)
    ensures client.storage == agg.storage
    ensures agg.isGlobalCapturing == old(agg.isGlobalCapturing) && agg.activeCaptureTabs == old(agg.activeCaptureTabs)
    ensures client.isCapturing == old(client.isCapturing) && client.observing == old(client.observing)
    ensures client.initializationAttempts == old(client.initializationAttempts) && client.meetingTitle == old(client.meetingTitle)
    ensures client.storage.isCapturing == old(client.storage.isCapturing) && client.storage.activeTabs == old(client.storage.activeTabs)
    ensures agg.globalTranscript != old(agg.globalTranscript) ==>
              agg.badge == Background.BadgeFor(|agg.globalTranscript|, agg.isGlobalCapturing)
              && client.storage.transcript == agg.globalTranscript
    ensures agg.globalTranscript == old(agg.globalTranscript) ==>
              agg.badge == old(agg.badge)
              && client.storage.transcript == if appended then client.transcript else old(client.storage.transcript)
  {
    ghost var local0, offset0, global0 := client.transcript, client.lastTranscriptLength, agg.globalTranscript;
    var sent;
    appended, sent := client.ObserveText(raw, delivered);
    if delivered && sent.Some? {
      var _ := agg.HandleTranscriptUpdate(ToPayload(sent.value));
      if ToPayload(sent.value).List? {
        MergeExtends(global0, ToPayload(sent.value).items);
      }
    }
    if Synced(local0, offset0, global0) && AllNonEmpty(local0) {
      if appended {
        Text.TrimEmptyIffWhitespace(raw);
        ObserveKeepsSynced(local0, offset0, global0, Text.Trim(raw));
        assert AllNonEmpty(client.transcript);
        if delivered {
          SendSyncsAll(client.transcript, offset0, global0);
        }
      }
    }
  }

  /** The Ctrl+Shift+C shortcut as written: the tab clears its transcript and
      the background clears the global one, but the offset stays. */
  method ShortcutClear(client: Content.CaptureClient, agg: Background.Aggregator)
    requires client.Valid() && client.storage == agg.storage
    modifies client, agg, client.storage
    ensures client.Valid() && client.storage == agg.storage
    ensures client.transcript == [] && agg.globalTranscript == []
    ensures client.lastTranscriptLength == old(client.lastTranscriptLength)
    ensures Synced(client.transcript, client.lastTranscriptLength, agg.globalTranscript) <==> client.lastTranscriptLength == 0
    ensures agg.isGlobalCapturing == old(agg.isGlobalCapturing) && agg.activeCaptureTabs == old(agg.activeCaptureTabs)
    ensures client.isCapturing == old(client.isCapturing) && client.observing == old(client.observing)
    ensures client.initializationAttempts == old(client.initializationAttempts) && client.meetingTitle == old(client.meetingTitle)
    ensures client.storage.isCapturing == old(client.storage.isCapturing) && client.storage.activeTabs == old(client.storage.activeTabs)
    ensures agg.badge == Background.BadgeFor(0, agg.isGlobalCapturing) && client.storage.transcript == []
  {
    client.ClearViaShortcut();
    agg.ClearGlobalTranscript();
  }

  /** The shortcut clear with the offset reset as well: both sides restart
      in sync. */
  method ShortcutClearCorrected(client: Content.CaptureClient, agg: Background.Aggregator)
    requires client.Valid() && client.storage == agg.storage
    modifies client, agg, client.storage
    ensures client.Valid() && client.storage == agg.storage
    ensures client.transcript == [] && agg.globalTranscript == [] && client.lastTranscriptLength == 0
    ensures Synced(client.transcript, client.lastTranscriptLength, agg.globalTranscript)
    ensures agg.isGlobalCapturing == old(agg.isGlobalCapturing) && agg.activeCaptureTabs == old(agg.activeCaptureTabs)
    ensures client.isCapturing == old(client.isCapturing) && client.observing == old(client.observing)
    ensures client.initializationAttempts == old(client.initializationAttempts) && client.meetingTitle == old(client.meetingTitle)
    ensures client.storage.isCapturing == old(client.storage.isCapturing) && client.storage.activeTabs == old(client.storage.activeTabs)
    ensures agg.badge == Background.BadgeFor(0, agg.isGlobalCapturing) && client.storage.transcript == []
  {
    client.ClearViaShortcutCorrected();
    agg.ClearGlobalTranscript();
  }

  /** The `clearTranscript` message: the tab clears and resets its offset and
      tells the background to clear. */
  method ClearBoth(client: Content.CaptureClient, agg: Background.Aggregator) returns (success: bool)
    requires client.Valid() && client.storage == agg.storage
    modifies client, agg, client.storage
    ensures client.Valid() && client.storage == agg.storage && success
    ensures client.transcript == [] && agg.globalTranscript == [] && client.lastTranscriptLength == 0
    ensures Synced(client.transcript, client.lastTranscriptLength, agg.globalTranscript)
    ensures agg.isGlobalCapturing == old(agg.isGlobalCapturing) && agg.activeCaptureTabs == old(agg.activeCaptureTabs)
    ensures client.isCapturing == old(client.isCapturing) && client.observing == old(client.observing)
    ensures client.initializationAttempts == old(client.initializationAttempts) && client.meetingTitle == old(client.meetingTitle)
    ensures client.storage.isCapturing == old(client.storage.isCapturing) && client.storage.activeTabs == old(client.storage.activeTabs)
    ensures agg.badge == Background.BadgeFor(0, agg.isGlobalCapturing) && client.storage.transcript == []
  {
    success := client.ClearTranscript();
    agg.ClearGlobalTranscript();
  }

  /** A tab whose offset covers all but its last line sends just that line;
      when it is new to the background it is appended there. */
  lemma NextLineSent(local: seq<string>, global: seq<string>, line: string)
    requires line != "" && line !in global
    ensures AfterSend(local + [line], |local|, global) == global + [line]
  {
    assert (local + [line])[|local|..] == [line];
    assert Content.Unsent(local + [line], |local|) == Some([line]);
    assert ToPayload([line]).items == [Str(line)];
    assert [Str(line)][..0] == [];
    assert Merge(global, [Str(line)]) == Absorb(global, Str(line));
  }

  lemma TrimScenarioLines()
    ensures Text.Trim("a") == "a" && Text.Trim("b") == "b" && Text.Trim("c") == "c"
  {
  }

  /** A fresh tab and worker sharing one store: the tab finds the caption
      container, then sees the captions "a" and "b", both pushed and
      acknowledged. */
  method TwoCaptions() returns (client: Content.CaptureClient, agg: Background.Aggregator)
    ensures fresh(client) && fresh(agg) && fresh(client.storage) && client.storage == agg.storage
    ensures client.Valid() && client.observing
    ensures client.transcript == ["a", "b"] && client.lastTranscriptLength == 2
    ensures agg.globalTranscript == ["a", "b"]
  {
    var store := new LocalStore();
    agg := new Background.Aggregator(store);
    client := new Content.CaptureClient(store);
    var _, _ := client.StartCapturing(true);
    TrimScenarioLines();
    NextLineSent([], [], "a");
    var _ := DeliverCaption(client, agg, "a", true);
    assert client.transcript == ["a"] && client.lastTranscriptLength == 1;
    assert agg.globalTranscript == ["a"];
    NextLineSent(["a"], ["a"], "b");
    var _ := DeliverCaption(client, agg, "b", true);
    assert client.transcript == ["a", "b"] && client.lastTranscriptLength == 2;
  }

  /** Two captions, the shortcut clear as written, then a third caption: the
      third line stays in the tab and never reaches the background. */
  method ShortcutClearLosesLine() returns (local: seq<string>, global: seq<string>)
    ensures local == ["c"] && global == []
  {
    var client, agg := TwoCaptions();
    ShortcutClear(client, agg);
    TrimScenarioLines();
    var _ := DeliverCaption(client, agg, "c", true);
    local, global := client.transcript, agg.globalTranscript;
  }

  /** The same run with the corrected shortcut clear: the third line
      reaches the background. */
  method ShortcutClearCorrectedForwardsLine() returns (local: seq<string>, global: seq<string>)
    ensures local == ["c"] && global == ["c"]
  {
    var client, agg := TwoCaptions();
    ShortcutClearCorrected(client, agg);
    TrimScenarioLines();
    NextLineSent([], [], "c");
    var _ := DeliverCaption(client, agg, "c", true);
    local, global := client.transcript, agg.globalTranscript;
  }
}
