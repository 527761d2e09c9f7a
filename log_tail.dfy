/** The live watcher's reading of the gateway log: the day's file name, the size cursor
    that reads only what was appended since the last change, and the dispatch of the new
    lines through the live classifier into the store. */
module LogTail {
  import opened Wrappers
  import opened Text
  import Seqs
  import opened Events
  import opened GatewayLog
  import LiveClassifier
  import LiveStore

  const LogDir: string := "/tmp/openclaw"

  /** `getCurrentLogFile`: `iso` is the clock's ISO-8601 reading; the date is the part
      before the `T`. */
  function CurrentLogFile(iso: string): (r: string)
    ensures LogDir + "/openclaw-" <= r
  {
    LogDir + "/openclaw-" + Before(iso, 'T') + ".log"
  }

  /** The rotation check switches files exactly when the date part of the clock reading
      changed. */
  lemma RotationIffDateChanges(iso: string, iso': string)
    ensures CurrentLogFile(iso) == CurrentLogFile(iso') <==> Before(iso, 'T') == Before(iso', 'T')
  {
    var p := LogDir + "/openclaw-";
    var d, d' := Before(iso, 'T'), Before(iso', 'T');
    if CurrentLogFile(iso) == CurrentLogFile(iso') {
      var a, b := p + d + ".log", p + d' + ".log";
      assert |d| == |d'|;
      forall i | 0 <= i < |d| ensures d[i] == d'[i] {
        assert a[|p| + i] == d[i];
        assert b[|p| + i] == d'[i];
      }
    }
  }

  /** The size cursor of one watched file. `fileSize` is the number of characters read
      so far; it starts at the file's size, so older lines are never dispatched. */
  class TailCursor {
    const logFile: string
    var fileSize: nat

    constructor(logFile: string, size: nat)
      ensures this.logFile == logFile && fileSize == size
    {
      this.logFile := logFile;
      fileSize := size;
    }

    /** The watcher callback: `isChange` says the event was a `change`, `file` is the
        file's content at that moment. Only a file larger than the cursor is read, from
        the cursor to its end; its non-empty lines are returned for dispatch and the
        cursor moves to the end. A line still being written is split where the read
        ends: nothing is carried over to the next read. */
    method OnChange(isChange: bool, file: string) returns (lines: seq<string>)
      modifies this
      ensures !isChange || |file| <= old(fileSize) ==> lines == [] && fileSize == old(fileSize)
      ensures isChange && |file| > old(fileSize) ==> fileSize == |file| && lines == Fragments(file[old(fileSize)..], '\n')
    {
      lines := [];
      if isChange {
        var newSize := |file|;
        if newSize > fileSize {
          var buffer := file[fileSize..newSize];
          assert buffer == file[fileSize..];
          lines := Fragments(buffer, '\n');
          fileSize := newSize;
        }
      }
    }
  }

  /** Two reads of a growing file join up: what the second read starts at is where the
      first one ended, so together they are the file from the first cursor on. */
  lemma ReadsAreContiguous(file: string, file': string, start: nat)
    requires start < |file| && file <= file'
    ensures file[start..] + file'[|file|..] == file'[start..]
  {
  }

  /** When the first read ends at a line break, reading in two steps dispatches the same
      lines as one read of both; otherwise the line cut by the read is dispatched in two
      pieces. */
  lemma LinesJoinAtLineBreak(file: string, file': string, start: nat)
    requires start < |file| && file <= file' && file[|file| - 1] == '\n'
    ensures Fragments(file[start..], '\n') + Fragments(file'[|file|..], '\n') == Fragments(file'[start..], '\n')
  {
    ReadsAreContiguous(file, file', start);
    FragmentsAfterSeparator(file[start..], file'[|file|..], '\n');
  }

  /** A line cut by a read is dispatched as two lines: e.g. `ab` read as `a` and then
      `b\n` makes the lines `a` and `b`, where one read makes `ab`. */
  lemma CutLineIsSplit()
    ensures Fragments("a", '\n') + Fragments("b\n", '\n') == ["a", "b"]
    ensures Fragments("ab\n", '\n') == ["ab"]
  {
    assert Split("", '\n') == [""];
    assert "a"[1..] == "" && "b\n"[1..] == "\n" && "\n"[1..] == "" && "ab\n"[1..] == "b\n";
    assert Split("\n", '\n') == ["", ""];
    assert ['a'] + "" == "a" && ['b'] + "" == "b" && ['a'] + "b" == "ab";
    assert [""][1..] == [] && ["", ""][1..] == [""] && ["b", ""][1..] == [""];
    assert Split("a", '\n') == ["a"];
    assert Split("b\n", '\n') == ["b", ""];
    assert Split("ab\n", '\n') == ["ab", ""];
  }

  /** What each dispatched line draws from the world: the clock reading and id suffix
      of its classification, and whether the append to the activity file succeeded. */
  datatype Arrival = Arrival(now: int, suffix: string, writeOk: bool)

  /** The events that reach the store, in dispatch order: each line that classifies to
      an event and whose append succeeded. */
  function Stored(lines: seq<string>, decode: string -> LogInput, dateMs: string -> int, at: nat -> Arrival): seq<ActivityEvent>
  {
    if lines == [] then []
    else
      var n := |lines| - 1;
      var ev := LiveClassifier.ClassifyLive(decode(lines[n]), at(n).now, dateMs, at(n).suffix);
      Stored(lines[..n], decode, dateMs, at) + (if ev.Some? && at(n).writeOk then [ev.value] else [])
  }

  /** The `end` handler of the read stream: each line is classified (`decode` is the
      JSON parser) and its event appended to the store; line `i` draws `at(i)`. */
  method Dispatch(store: LiveStore.ActivityStore, lines: seq<string>, decode: string -> LogInput, dateMs: string -> int, at: nat -> Arrival)
    modifies store
    ensures store.events == LiveStore.PushAll(old(store.events), Stored(lines, decode, dateMs, at))
  {
    var i := 0;
    ghost var start := store.events;
    while i < |lines|
      invariant 0 <= i <= |lines|
      invariant store.events == LiveStore.PushAll(start, Stored(lines[..i], decode, dateMs, at))
    {
      DispatchLine(store, lines, i, decode, dateMs, at, start);
      i := i + 1;
    }
    assert lines[..i] == lines;
  }

  /** The loop body: line `i` goes to the store when it makes an event. */
  method DispatchLine(store: LiveStore.ActivityStore, lines: seq<string>, i: nat, decode: string -> LogInput, dateMs: string -> int, at: nat -> Arrival,
      ghost start: seq<ActivityEvent>)
    requires i < |lines|
    requires store.events == LiveStore.PushAll(start, Stored(lines[..i], decode, dateMs, at))
    modifies store
    ensures store.events == LiveStore.PushAll(start, Stored(lines[..i + 1], decode, dateMs, at))
  {
    var event := LiveClassifier.ClassifyLive(decode(lines[i]), at(i).now, dateMs, at(i).suffix);
    assert lines[..i + 1][..i] == lines[..i];
    ghost var before := Stored(lines[..i], decode, dateMs, at);
    if event.Some? {
      store.Append(event.value, at(i).writeOk);
    }
    PushAllSnoc(start, before, if event.Some? && at(i).writeOk then [event.value] else []);
  }

  /** Appending a run of events and then some more is appending all of them. */
  lemma {:induction false} PushAllSnoc(s: seq<ActivityEvent>, es: seq<ActivityEvent>, more: seq<ActivityEvent>)
    requires |more| <= 1
    ensures LiveStore.PushAll(s, es + more) == if more == [] then LiveStore.PushAll(s, es) else LiveStore.Pushed(LiveStore.PushAll(s, es), more[0])
    decreases |es|
  {
    if es == [] {
      assert es + more == more;
      if more != [] {
        assert more[1..] == [];
      }
    } else {
      assert (es + more)[1..] == es[1..] + more;
      PushAllSnoc(LiveStore.Pushed(s, es[0]), es[1..], more);
    }
  }

  /** After a dispatch a bounded store holds the newest 1000 of the stored events, last
      dispatched first, followed by what it held before. */
  lemma DispatchRetains(s: seq<ActivityEvent>, lines: seq<string>, decode: string -> LogInput, dateMs: string -> int, at: nat -> Arrival)
    requires |s| <= LiveStore.MaxEvents
    ensures var r := LiveStore.PushAll(s, Stored(lines, decode, dateMs, at));
      && r == Seqs.Take(LiveStore.Reversed(Stored(lines, decode, dateMs, at)) + s, LiveStore.MaxEvents)
      && |r| <= LiveStore.MaxEvents
  {
    LiveStore.PushAllRetains(s, Stored(lines, decode, dateMs, at));
  }
}
