/** The merge of transcript events across agents (`getAllEvents`): per agent, the five
    newest `.jsonl` session files, read until the collected events reach twice the limit;
    then every collected event sorted newest first and cut to the limit. */
module History {
  import opened Wrappers
  import opened Text
  import opened Seqs
  import opened Events

  /** A directory entry of an agent's `sessions` directory with its modification time. */
  datatype SessionFile = SessionFile(name: string, mtime: int)

  /** An agent directory; `sessions` is absent when it has no `sessions` directory. */
  datatype AgentDir = AgentDir(name: string, sessions: Option<seq<SessionFile>>)

  predicate IsTranscript(f: SessionFile) {
    EndsWith(f.name, ".jsonl")
  }

  function MTime(f: SessionFile): int {
    f.mtime
  }

  const FilesPerAgent: nat := 5

  /** The files read for an agent: the `.jsonl` entries, newest first, at most five. */
  function SelectSessionFiles(entries: seq<SessionFile>): seq<SessionFile> {
    Take(SortDesc(Filter(entries, IsTranscript), MTime), FilesPerAgent)
  }

  /** The selection holds at most five `.jsonl` entries of the directory, newest first,
      and any `.jsonl` entry left out is no newer than each selected one. */
  lemma SelectionMeaning(entries: seq<SessionFile>)
    ensures var sel := SelectSessionFiles(entries);
      && |sel| <= 5
      && |sel| == (if |Filter(entries, IsTranscript)| <= 5 then |Filter(entries, IsTranscript)| else 5)
      && (forall f :: f in sel ==> f in entries && IsTranscript(f))
      && SortedDesc(sel, MTime)
      && (forall f :: f in entries && IsTranscript(f) && f !in sel ==> forall g :: g in sel ==> g.mtime >= f.mtime)
      && (|Filter(entries, IsTranscript)| <= 5 ==> multiset(sel) == multiset(Filter(entries, IsTranscript)))
  {
    var ts := Filter(entries, IsTranscript);
    var sorted := SortDesc(ts, MTime);
    var sel := Take(sorted, FilesPerAgent);
    forall f | f in sel ensures f in entries && IsTranscript(f) {
      assert f in multiset(sorted);
    }
    assert SortedDesc(sel, MTime) by {
      PrefixIsSubseq(sel, sorted);
      SubseqKeepsSortedDesc(sel, sorted, MTime);
    }
    forall f | f in entries && IsTranscript(f) && f !in sel ensures forall g :: g in sel ==> g.mtime >= f.mtime {
      assert f in ts;
      assert f in multiset(ts);
      TopOfSortDesc(ts, MTime, FilesPerAgent, f);
    }
  }

  /** The events of a file, as the transcript parser reads them (the agent directory and
      the file name locate it). */
  type Reader = (string, string) -> seq<ActivityEvent>

  /** The per-agent loop: the events of the files appended in order, stopping after the
      file that brings the count to `cap` (twice the limit) or more. */
  function ReadFiles(agent: string, files: seq<SessionFile>, acc: seq<ActivityEvent>, cap: nat, read: Reader): seq<ActivityEvent>
    decreases |files|
  {
    if files == [] then acc
    else
      var acc' := acc + read(agent, files[0].name);
      if |acc'| >= cap then acc' else ReadFiles(agent, files[1..], acc', cap, read)
  }

  /** The loop over agents; an agent without a `sessions` directory is skipped. The stop
      at `cap` only ends the agent's own file loop: the next agent is still read. */
  function ReadAgents(agents: seq<AgentDir>, acc: seq<ActivityEvent>, cap: nat, read: Reader): seq<ActivityEvent>
    decreases |agents|
  {
    if agents == [] then acc
    else
      var a := agents[0];
      var acc' := if a.sessions.None? then acc else ReadFiles(a.name, SelectSessionFiles(a.sessions.value), acc, cap, read);
      ReadAgents(agents[1..], acc', cap, read)
  }

  /** `getAllEvents`: `agents` is absent when there is no agents directory; with an agent
      filter it is that one agent. */
  method GetAllEvents(agents: Option<seq<AgentDir>>, limit: nat, read: Reader) returns (result: seq<ActivityEvent>)
    ensures agents.None? ==> result == []
    ensures agents.Some? ==> result == Take(SortDesc(ReadAgents(agents.value, [], 2 * limit, read), Timestamp), limit)
  {
    if agents.None? {
      return [];
    }
    var all: seq<ActivityEvent> := [];
    var list := agents.value;
    var i := 0;
    while i < |list|
      invariant 0 <= i <= |list|
      invariant ReadAgents(list[i..], all, 2 * limit, read) == ReadAgents(list, [], 2 * limit, read)
    {
      var agent := list[i];
      assert list[i..][1..] == list[i + 1..];
      if agent.sessions.Some? {
        var files := SelectSessionFiles(agent.sessions.value);
        ghost var start := all;
        var j := 0;
        while j < |files|
          invariant 0 <= j <= |files|
          invariant ReadFiles(agent.name, files[j..], all, 2 * limit, read) == ReadFiles(agent.name, files, start, 2 * limit, read)
        {
          assert files[j..][1..] == files[j + 1..];
          all := all + read(agent.name, files[j].name);
          if |all| >= limit * 2 {
            break;
          }
          j := j + 1;
        }
      }
      i := i + 1;
    }
    result := Take(SortDesc(all, Timestamp), limit);
  }

  /** The result is newest first, at most `limit` long, drawn from the collected
      events, and holds the newest of them: a collected event left out is no newer than
      any kept one. */
  lemma MergeMeaning(collected: seq<ActivityEvent>, limit: nat)
    ensures var r := Take(SortDesc(collected, Timestamp), limit);
      && |r| <= limit && SortedDesc(r, Timestamp)
      && |r| == (if |collected| <= limit then |collected| else limit)
      && (forall e :: e in r ==> e in collected)
      && (forall e :: e in collected && e !in r ==> forall g :: g in r ==> g.ts >= e.ts)
      && (|collected| <= limit ==> multiset(r) == multiset(collected))
  {
    var sorted := SortDesc(collected, Timestamp);
    var r := Take(sorted, limit);
    forall e | e in r ensures e in collected {
      assert e in multiset(sorted);
    }
    PrefixIsSubseq(r, sorted);
    SubseqKeepsSortedDesc(r, sorted, Timestamp);
    forall e | e in collected && e !in r ensures forall g :: g in r ==> g.ts >= e.ts {
      TopOfSortDesc(collected, Timestamp, limit, e);
    }
  }

  /** The concatenation of the events of the files, in order. */
  function EventsOf(agent: string, files: seq<SessionFile>, read: Reader): seq<ActivityEvent> {
    if files == [] then [] else read(agent, files[0].name) + EventsOf(agent, files[1..], read)
  }

  /** An agent's files are read in order until the count reaches `cap`: the loop reads
      a prefix of them, every shorter prefix left the count under `cap`, and when it
      stopped early the count had reached `cap`. */
  lemma {:induction false} ReadFilesStops(agent: string, files: seq<SessionFile>, acc: seq<ActivityEvent>, cap: nat, read: Reader)
    returns (n: nat)
    ensures n <= |files|
    ensures ReadFiles(agent, files, acc, cap, read) == acc + EventsOf(agent, files[..n], read)
    ensures forall k :: 0 < k < n ==> |acc + EventsOf(agent, files[..k], read)| < cap
    ensures n < |files| ==> n > 0 && |acc + EventsOf(agent, files[..n], read)| >= cap
    decreases |files|
  {
    if files == [] {
      n := 0;
    } else {
      var acc' := acc + read(agent, files[0].name);
      assert EventsOf(agent, files[..1], read) == read(agent, files[0].name) + EventsOf(agent, [], read);
      if |acc'| >= cap {
        n := 1;
      } else {
        var m := ReadFilesStops(agent, files[1..], acc', cap, read);
        n := m + 1;
        forall k | 0 <= k <= m
          ensures acc + EventsOf(agent, files[..k + 1], read) == acc' + EventsOf(agent, files[1..][..k], read)
        {
          assert files[..k + 1][1..] == files[1..][..k];
        }
        forall k | 0 < k < n ensures |acc + EventsOf(agent, files[..k], read)| < cap {
          if k > 1 {
            assert acc + EventsOf(agent, files[..k], read) == acc' + EventsOf(agent, files[1..][..k - 1], read);
          }
        }
      }
    }
  }

  /** With room to spare the loop reads every selected file: if all the files' events
      stay under `cap`, nothing is skipped. */
  lemma {:induction false} ReadFilesAll(agent: string, files: seq<SessionFile>, acc: seq<ActivityEvent>, cap: nat, read: Reader)
    requires |acc + EventsOf(agent, files, read)| < cap
    ensures ReadFiles(agent, files, acc, cap, read) == acc + EventsOf(agent, files, read)
    decreases |files|
  {
    if files != [] {
      var acc' := acc + read(agent, files[0].name);
      assert acc + EventsOf(agent, files, read) == acc' + EventsOf(agent, files[1..], read);
      ReadFilesAll(agent, files[1..], acc', cap, read);
    }
  }
}
