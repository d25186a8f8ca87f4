/** The line-merging rule of the background worker (background.js:104-113):
    a batch is folded into the transcript left to right, and an entry is
    pushed when it is a non-empty string not already present. Lines are
    compared by exact string equality. */
module Transcript {

  /** One element of a `transcriptUpdate` payload. Only strings can be taken
      in; `NonString` stands for every other JavaScript value. */
  datatype Value = Str(s: string) | NonString

  /** The `data` of a `transcriptUpdate` message: an array, or something else. */
  datatype Payload = List(items: seq<Value>) | NotList

  /** The payload a content script sends for a run of its lines. */
  function ToPayload(lines: seq<string>): Payload
  {
    List(seq(|lines|, i requires 0 <= i < |lines| => Str(lines[i])))
  }

  /** No line occurs twice. */
  predicate NoDups(t: seq<string>)
  {
    forall i, j :: 0 <= i < j < |t| ==> t[i] != t[j]
  }

  /** `line && typeof line === 'string'`: a string that is not empty. A string
      of spaces passes; nothing is trimmed. */
  predicate Accepted(v: Value)
  {
    v.Str? && v.s != ""
  }

  /** One turn of the `forEach`: push the entry if it is accepted and new. */
  function Absorb(t: seq<string>, v: Value): seq<string>
  {
    if Accepted(v) && v.s !in t then t + [v.s] else t
  }

  /** The transcript once the whole batch has been folded in. */
  function Merge(t: seq<string>, batch: seq<Value>): seq<string>
  {
    if batch == [] then t
    else Absorb(Merge(t, batch[..|batch| - 1]), batch[|batch| - 1])
  }

  /** An independent description of what a merge appends: the accepted
      entries that are absent from `t` and are the first entry of their
      string in the batch, in batch order. */
  function NewLines(t: seq<string>, batch: seq<Value>): seq<string>
  {
    if batch == [] then []
    else
      var init, v := batch[..|batch| - 1], batch[|batch| - 1];
      NewLines(t, init) + (if Accepted(v) && v.s !in t && v !in init then [v.s] else [])
  }

  /** A line is in the merged transcript exactly when it was there before or
      the batch holds it as a non-empty string. */
  lemma {:induction false} MergeMembers(t: seq<string>, batch: seq<Value>)
    ensures forall x :: x in Merge(t, batch) <==> x in t || (x != "" && Str(x) in batch)
  {
    if batch != [] {
      var init := batch[..|batch| - 1];
      MergeMembers(t, init);
      assert batch == init + [batch[|batch| - 1]];
    }
  }

  /** The merge keeps the old transcript as a prefix and appends exactly
      `NewLines`. */
  lemma {:induction false} MergeAppendsNewLines(t: seq<string>, batch: seq<Value>)
    ensures Merge(t, batch) == t + NewLines(t, batch)
  {
    if batch != [] {
      var init, v := batch[..|batch| - 1], batch[|batch| - 1];
      MergeAppendsNewLines(t, init);
      MergeMembers(t, init);
      if Accepted(v) {
        assert v.s in Merge(t, init) <==> v.s in t || v in init;
      }
    }
  }

  /** After a merge the old transcript is a prefix of the new one. */
  lemma MergeExtends(t: seq<string>, batch: seq<Value>)
    ensures t <= Merge(t, batch)
    ensures |Merge(t, batch)| - |t| == |NewLines(t, batch)|
  {
    MergeAppendsNewLines(t, batch);
  }

  /** A duplicate-free transcript stays duplicate-free, however many times a
      line is repeated inside the batch. */
  lemma {:induction false} MergeNoDups(t: seq<string>, batch: seq<Value>)
    requires NoDups(t)
    ensures NoDups(Merge(t, batch))
  {
    if batch != [] {
      MergeNoDups(t, batch[..|batch| - 1]);
    }
  }

  /** The merge changes nothing exactly when every accepted entry of the
      batch is already in the transcript. */
  lemma MergeUnchangedIff(t: seq<string>, batch: seq<Value>)
    ensures Merge(t, batch) == t <==> forall k :: 0 <= k < |batch| && Accepted(batch[k]) ==> batch[k].s in t
  {
    MergeMembers(t, batch);
    MergeAppendsNewLines(t, batch);
    if forall k :: 0 <= k < |batch| && Accepted(batch[k]) ==> batch[k].s in t {
      NewLinesAllNew(t, batch);
    } else {
      var k :| 0 <= k < |batch| && Accepted(batch[k]) && batch[k].s !in t;
      assert batch[k].s in Merge(t, batch);
    }
  }

  /** No line `NewLines` yields is in the old transcript. */
  lemma {:induction false} NewLinesAllNew(t: seq<string>, batch: seq<Value>)
    ensures forall x :: x in NewLines(t, batch) ==> x !in t
  {
    if batch != [] {
      NewLinesAllNew(t, batch[..|batch| - 1]);
    }
  }

  /** Merging the same batch a second time adds nothing. */
  lemma MergeIdempotent(t: seq<string>, batch: seq<Value>)
    ensures Merge(Merge(t, batch), batch) == Merge(t, batch)
  {
    var m := Merge(t, batch);
    MergeMembers(t, batch);
    forall k | 0 <= k < |batch| && Accepted(batch[k]) ensures batch[k].s in m {
      assert Str(batch[k].s) == batch[k];
    }
    MergeUnchangedIff(m, batch);
  }

  /** Two batches merged one after the other merge like their concatenation. */
  lemma {:induction false} MergeConcat(t: seq<string>, b1: seq<Value>, b2: seq<Value>)
    ensures Merge(t, b1 + b2) == Merge(Merge(t, b1), b2)
  {
    if b2 == [] {
      assert b1 + b2 == b1;
    } else {
      var init := b2[..|b2| - 1];
      MergeConcat(t, b1, init);
      assert (b1 + b2)[..|b1 + b2| - 1] == b1 + init;
    }
  }

  /** Scenario: one source sends ["Hello", "World"], another ["World", "Goodbye"];
      the second merge adds one line. */
  lemma TwoSourcesScenario()
    ensures Merge([], [Str("Hello"), Str("World")]) == ["Hello", "World"]
    ensures Merge(["Hello", "World"], [Str("World"), Str("Goodbye")]) == ["Hello", "World", "Goodbye"]
  {
    assert [Str("Hello"), Str("World")][..1] == [Str("Hello")];
    assert [Str("World"), Str("Goodbye")][..1] == [Str("World")];
  }

  /** The lines of `lines` that `t` does not hold, in their order. */
  function Missing(t: seq<string>, lines: seq<string>): seq<string>
  {
    if lines == [] then []
    else
      var init, x := lines[..|lines| - 1], lines[|lines| - 1];
      Missing(t, init) + (if x in t then [] else [x])
  }

  lemma {:induction false} MissingMembers(t: seq<string>, lines: seq<string>)
    ensures forall x :: x in Missing(t, lines) <==> x in lines && x !in t
  {
    if lines != [] {
      MissingMembers(t, lines[..|lines| - 1]);
      assert lines == lines[..|lines| - 1] + [lines[|lines| - 1]];
    }
  }

  /** What a content script sends is merged as its missing lines appended in
      order: every line of a duplicate-free run of non-empty lines that the
      background does not hold yet is added, and nothing else. */
  lemma {:induction false} MergeSentLines(t: seq<string>, lines: seq<string>)
    requires NoDups(lines)
    requires forall i :: 0 <= i < |lines| ==> lines[i] != ""
    ensures ToPayload(lines).List?
    ensures Merge(t, ToPayload(lines).items) == t + Missing(t, lines)
  {
    if lines != [] {
      var init, x := lines[..|lines| - 1], lines[|lines| - 1];
      var items := ToPayload(lines).items;
      assert items[..|items| - 1] == ToPayload(init).items;
      assert items[|items| - 1] == Str(x);
      MergeSentLines(t, init);
      MissingMembers(t, init);
      assert x !in init by {
        forall k | 0 <= k < |init| ensures init[k] != x {
          assert init[k] == lines[k];
        }
      }
    }
  }
}
