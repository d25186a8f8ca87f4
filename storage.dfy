/** `chrome.storage.local` as one shared object: the background worker and
    every content script write the same three keys. A write is a field
    assignment; reads and writes are immediate. */
module Storage {

  type TabId = int

  class LocalStore {
    var transcript: seq<string>
    var isCapturing: bool
    var activeTabs: set<TabId>

    /** The values the install handler writes (background.js:11-15). */
    constructor ()
      ensures transcript == [] && !isCapturing && activeTabs == {}
    {
      transcript := [];
      isCapturing := false;
      activeTabs := {};
    }
  }
}
