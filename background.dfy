/** The background service worker (background.js): the process-wide
    transcript, the set of tabs that are capturing, the global capturing flag,
    and the badge it shows. Replies of tabs to its `startCapturing` directives
    arrive as parameters. */
module Background {
  import opened Transcript
  import Text
  import opened Storage

  const CapturingColor := "#4CAF50"
  const IdleColor := "#757575"

  datatype Badge = Badge(text: string, color: string)

  /** What `updateBadge` shows for a transcript of `count` lines
      (background.js:199-206). */
  function BadgeFor(count: nat, capturing: bool): (b: Badge)
    ensures b.text == "" <==> count == 0
    ensures b.color == if capturing then CapturingColor else IdleColor
  {
    Badge(if count > 0 then Text.DecimalString(count) else "", if capturing then CapturingColor else IdleColor)
  }

  /** The badge text is the decimal line count: reading it back gives the
      count, and it is a numeral without a leading zero. */
  lemma BadgeShowsCount(count: nat, capturing: bool)
    requires count > 0
    ensures Text.ParseDecimal(BadgeFor(count, capturing).text) == count
    ensures forall i :: 0 <= i < |BadgeFor(count, capturing).text| ==> Text.IsDigit(BadgeFor(count, capturing).text[i])
    ensures BadgeFor(count, capturing).text[0] != '0'
  {
    Text.DecimalRoundTrip(count);
    Text.DecimalShape(count);
  }

  /** Two badges for non-zero counts show the same text only for the same count. */
  lemma BadgeTextInjective(c1: nat, c2: nat, capturing: bool)
    requires c1 > 0 && c2 > 0 && c1 != c2
    ensures BadgeFor(c1, capturing).text != BadgeFor(c2, capturing).text
  {
    Text.DecimalRoundTrip(c1);
    Text.DecimalRoundTrip(c2);
  }

  /** The reply to `getGlobalStatus`. */
  datatype StatusReply = StatusReply(capturing: bool, count: nat, activeTabs: nat)

  /** The reply to `getGlobalTranscript`. */
  datatype TranscriptReply = TranscriptReply(transcript: seq<string>, count: nat)

  /** How a Meet tab answered the `startCapturing` directive: `success` is
      false when injecting the script failed, when no reply came, or when the
      reply said `success: false`. */
  datatype TabReply = TabReply(id: TabId, success: bool)

  /** The tabs whose reply had `success`. */
  function StartedTabs(replies: seq<TabReply>): set<TabId>
  {
    if replies == [] then {}
    else
      var last := replies[|replies| - 1];
      StartedTabs(replies[..|replies| - 1]) + (if last.success then {last.id} else {})
  }

  /** A tab is started exactly when one of its replies had `success`. */
  lemma {:induction false} StartedTabsExactly(replies: seq<TabReply>)
    ensures forall id :: id in StartedTabs(replies) <==> exists k :: 0 <= k < |replies| && replies[k] == TabReply(id, true)
  {
    if replies != [] {
      var init := replies[..|replies| - 1];
      StartedTabsExactly(init);
      forall id | id in StartedTabs(replies)
        ensures exists k :: 0 <= k < |replies| && replies[k] == TabReply(id, true)
      {
        if id in StartedTabs(init) {
          var k :| 0 <= k < |init| && init[k] == TabReply(id, true);
          assert replies[k] == init[k];
        } else {
          assert replies[|replies| - 1] == TabReply(id, true);
        }
      }
      forall id | exists k :: 0 <= k < |replies| && replies[k] == TabReply(id, true)
        ensures id in StartedTabs(replies)
      {
        var k :| 0 <= k < |replies| && replies[k] == TabReply(id, true);
        if k < |init| {
          assert init[k] == replies[k];
        }
      }
    }
  }

  class Aggregator {
    var globalTranscript: seq<string>
    var activeCaptureTabs: set<TabId>
    var isGlobalCapturing: bool
    /** What `chrome.action` currently shows. */
    var badge: Badge
    const storage: LocalStore

    /** The module-level state before anything is loaded (background.js:4-6). */
    constructor (storage: LocalStore)
      ensures this.storage == storage
      ensures globalTranscript == [] && activeCaptureTabs == {} && !isGlobalCapturing
      ensures badge == BadgeFor(0, false)
    {
      this.storage := storage;
      globalTranscript := [];
      activeCaptureTabs := {};
      isGlobalCapturing := false;
      badge := BadgeFor(0, false);
    }

    /** `updateBadge` */
    method UpdateBadge()
      modifies this`badge
      ensures badge == BadgeFor(|globalTranscript|, isGlobalCapturing)
    {
      var count := |globalTranscript|;
      var text := if count > 0 then Text.DecimalString(count) else "";
      var color := if isGlobalCapturing then CapturingColor else IdleColor;
      badge := Badge(text, color);
    }

    /** `updateStoredActiveTabs` */
    method UpdateStoredActiveTabs()
      modifies storage`activeTabs
      ensures storage.activeTabs == activeCaptureTabs
    {
      storage.activeTabs := activeCaptureTabs;
    }

    /** The startup load (background.js:209-228). A stored transcript replaces
        the one in memory; a true stored flag turns capturing on and asks for a
        restart of global capture (`resume`), which the caller performs as
        `StartGlobalCapture` once the delay has passed; the stored tab ids
        become the active set. */
    method LoadStoredState() returns (resume: bool)
      modifies this
      ensures globalTranscript == storage.transcript
      ensures activeCaptureTabs == storage.activeTabs
      ensures isGlobalCapturing == (old(isGlobalCapturing) || storage.isCapturing)
      ensures resume == storage.isCapturing
      ensures badge == BadgeFor(|globalTranscript|, isGlobalCapturing)
    {
      globalTranscript := storage.transcript;
      resume := storage.isCapturing;
      if storage.isCapturing {
        isGlobalCapturing := true;
      }
      activeCaptureTabs := storage.activeTabs;
      UpdateBadge();
    }

    /** `handleTranscriptUpdate`: merge a batch of candidate lines and count
        the lines added. Storage and badge are written only when something
        was added. */
    method HandleTranscriptUpdate(data: Payload) returns (added: nat)
      modifies this, storage
      ensures data.NotList? ==> globalTranscript == old(globalTranscript)
      ensures data.List? ==> globalTranscript == Merge(old(globalTranscript), data.items)
      ensures added == |globalTranscript| - |old(globalTranscript)|
      ensures NoDups(old(globalTranscript)) ==> NoDups(globalTranscript)
      ensures activeCaptureTabs == old(activeCaptureTabs) && isGlobalCapturing == old(isGlobalCapturing)
      ensures added > 0 ==> storage.transcript == globalTranscript && badge == BadgeFor(|globalTranscript|, isGlobalCapturing)
      ensures added == 0 ==> storage.transcript == old(storage.transcript) && badge == old(badge)
      ensures storage.isCapturing == old(storage.isCapturing) && storage.activeTabs == old(storage.activeTabs)
    {
      added := 0;
      if !data.List? {
        return;
      }
      var lines := data.items;
      var i := 0;
      while i < |lines|
        modifies this`globalTranscript
        invariant 0 <= i <= |lines|
        invariant globalTranscript == Merge(old(globalTranscript), lines[..i])
        invariant |globalTranscript| == |old(globalTranscript)| + added
      {
        var line := lines[i];
        if line.Str? && line.s != "" && line.s !in globalTranscript {
          globalTranscript := globalTranscript + [line.s];
          added := added + 1;
        }
        assert lines[..i + 1][..i] == lines[..i];
        i := i + 1;
      }
      assert lines[..|lines|] == lines;
      if NoDups(old(globalTranscript)) {
        MergeNoDups(old(globalTranscript), lines);
      }
      if added > 0 {
        storage.transcript := globalTranscript;
        UpdateBadge();
      }
    }

    /** `startGlobalCapture` with the tabs' replies as input: the flag goes on,
        exactly the tabs that answered with `success` join the active set, and
        flag, active set and badge are written out. The transcript is not
        touched. */
    method StartGlobalCapture(replies: seq<TabReply>)
      modifies this, storage
      ensures isGlobalCapturing && storage.isCapturing
      ensures activeCaptureTabs == old(activeCaptureTabs) + StartedTabs(replies)
      ensures storage.activeTabs == activeCaptureTabs
      ensures globalTranscript == old(globalTranscript) && storage.transcript == old(storage.transcript)
      ensures badge == BadgeFor(|globalTranscript|, true)
    {
      isGlobalCapturing := true;
      storage.isCapturing := true;
      var i := 0;
      while i < |replies|
        modifies this`activeCaptureTabs
        invariant 0 <= i <= |replies|
        invariant activeCaptureTabs == old(activeCaptureTabs) + StartedTabs(replies[..i])
      {
        if replies[i].success {
          activeCaptureTabs := activeCaptureTabs + {replies[i].id};
        }
        assert replies[..i + 1][..i] == replies[..i];
        i := i + 1;
      }
      assert replies[..|replies|] == replies;
      UpdateStoredActiveTabs();
      UpdateBadge();
    }

    /** `stopGlobalCapture`: the flag goes off, every active tab is sent
        `stopCapturing` (returned as `directed`), and the active set is
        emptied. The transcript is not touched. */
    method StopGlobalCapture() returns (directed: set<TabId>)
      modifies this, storage
      ensures directed == old(activeCaptureTabs)
      ensures !isGlobalCapturing && !storage.isCapturing
      ensures activeCaptureTabs == {} && storage.activeTabs == {}
      ensures globalTranscript == old(globalTranscript) && storage.transcript == old(storage.transcript)
      ensures badge == BadgeFor(|globalTranscript|, false)
    {
      isGlobalCapturing := false;
      storage.isCapturing := false;
      directed := activeCaptureTabs;
      activeCaptureTabs := {};
      UpdateStoredActiveTabs();
      UpdateBadge();
    }

    /** `clearGlobalTranscript`: only the transcript (in memory and stored)
        and the badge change. */
    method ClearGlobalTranscript()
      modifies this, storage
      ensures globalTranscript == [] && storage.transcript == []
      ensures isGlobalCapturing == old(isGlobalCapturing) && activeCaptureTabs == old(activeCaptureTabs)
      ensures storage.isCapturing == old(storage.isCapturing) && storage.activeTabs == old(storage.activeTabs)
      ensures badge == BadgeFor(0, isGlobalCapturing)
    {
      globalTranscript := [];
      storage.transcript := [];
      UpdateBadge();
    }

    /** The `chrome.tabs.onRemoved` handler: only that tab leaves the active
        set, and nothing happens when it was not in it. */
    method OnTabRemoved(tabId: TabId)
      modifies this, storage
      ensures activeCaptureTabs == old(activeCaptureTabs) - {tabId}
      ensures tabId in old(activeCaptureTabs) ==> storage.activeTabs == activeCaptureTabs
      ensures tabId !in old(activeCaptureTabs) ==> storage.activeTabs == old(storage.activeTabs)
      ensures globalTranscript == old(globalTranscript) && isGlobalCapturing == old(isGlobalCapturing)
      ensures badge == old(badge)
      ensures storage.transcript == old(storage.transcript) && storage.isCapturing == old(storage.isCapturing)
    {
      if tabId in activeCaptureTabs {
        activeCaptureTabs := activeCaptureTabs - {tabId};
        UpdateStoredActiveTabs();
      }
    }

    /** The `chrome.tabs.onUpdated` handler for a Meet tab that finished
        loading (background.js:19-45): while global capture is on, the tab is
        sent `startCapturing` and joins the active set if it answers with
        `success`. */
    method OnMeetTabLoaded(reply: TabReply)
      modifies this, storage
      ensures activeCaptureTabs == if isGlobalCapturing && reply.success then old(activeCaptureTabs) + {reply.id} else old(activeCaptureTabs)
      ensures isGlobalCapturing && reply.success ==> storage.activeTabs == activeCaptureTabs
      ensures !(isGlobalCapturing && reply.success) ==> storage.activeTabs == old(storage.activeTabs)
      ensures globalTranscript == old(globalTranscript) && isGlobalCapturing == old(isGlobalCapturing)
      ensures badge == old(badge)
      ensures storage.transcript == old(storage.transcript) && storage.isCapturing == old(storage.isCapturing)
    {
      if isGlobalCapturing && reply.success {
        activeCaptureTabs := activeCaptureTabs + {reply.id};
        UpdateStoredActiveTabs();
      }
    }

    /** The reply to `getGlobalStatus`. */
    method GetGlobalStatus() returns (r: StatusReply)
      ensures r.capturing == isGlobalCapturing
      ensures r.count == |globalTranscript|
      ensures r.activeTabs == |activeCaptureTabs|
    {
      r := StatusReply(isGlobalCapturing, |globalTranscript|, |activeCaptureTabs|);
    }

    /** The reply to `getGlobalTranscript`. */
    method GetGlobalTranscript() returns (r: TranscriptReply)
      ensures r.transcript == globalTranscript && r.count == |r.transcript|
    {
      r := TranscriptReply(globalTranscript, |globalTranscript|);
    }
  }
}
