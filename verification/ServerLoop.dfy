/** The loop of the development server: file events and polls, in any order, with
    any edits of the disk between them. */
module ServerLoop {
  import opened Text
  import opened Theme
  import opened Watch
  import opened Remote
  import opened FileSystem
  import opened DevServer
  import Ignore
  import Plans

  const MaxPollingFailures: nat := 5

  /* ---------- file events ---------- */

  datatype FileEvent = CreateOrUpdate(key: string) | Delete(key: string)

  /** What an event may change: the remembered and the served files, and what is
      shared with the watcher. */
  datatype Memory = Memory(files: map<string, Asset>, served: map<string, Asset>, unsynced: set<string>, errors: Errors)

  function MemoryOf(fs: ThemeFileSystem, state: AppState): Memory
    reads fs, state, state.watch
  {
    Memory(fs.files, state.files, state.watch.unsynced, state.watch.uploadErrors)
  }

  /** The calls of an event: one about its key, unless there is nothing to send. */
  function EventCalls(event: FileEvent, read: ReadResult, nodelete: bool, answer: Option<seq<RemoteResult>>): seq<Call> {
    match event
    case CreateOrUpdate(_) => if read.Found? then [Upload([read.asset], answer)] else []
    case Delete(key) => if nodelete then [] else [Remove([key], answer)]
  }

  /** The event went through: nothing to do, or no call was refused. */
  predicate WentThrough(event: FileEvent, read: ReadResult, nodelete: bool, answer: Option<seq<RemoteResult>>) {
    match event
    case CreateOrUpdate(_) => read.Missing? || (read.Found? && answer.Some?)
    case Delete(_) => nodelete || answer.Some?
  }

  /** The memory after an event: an unreadable file changes nothing, a file that can
      be read is remembered and served, a deleted one is forgotten, and the key is
      unsynced until the remote has answered. */
  function AfterEvent(m: Memory, event: FileEvent, read: ReadResult, nodelete: bool,
                      answer: Option<seq<RemoteResult>>): Memory {
    var key := event.key;
    if event.CreateOrUpdate? && !read.Found? then m
    else
      var local := if event.CreateOrUpdate?
                   then m.(files := m.files[key := read.asset], served := m.served[key := read.asset])
                   else m.(files := m.files - {key}, served := m.served - {key});
      if event.Delete? && nodelete then local.(unsynced := m.unsynced - {key})
      else
        match answer
        case None => local.(unsynced := m.unsynced + {key})
        case Some(results) =>
          local.(unsynced := m.unsynced - {key},
                 errors := NotedAll(m.errors, results, if event.Delete? then "Delete" else "Upload"))
  }

  method HandleFileEvent(fs: ThemeFileSystem, state: AppState, remote: RemoteTheme, nodelete: bool, event: FileEvent)
      returns (ok: bool, ghost read: ReadResult, ghost answer: Option<seq<RemoteResult>>)
    modifies fs, state, state.watch, remote
    ensures fs.disk == old(fs.disk)
    ensures read == ReadAsset(old(fs.Now()), event.key, fs.codec) || read == Unreadable
    ensures remote.calls == old(remote.calls) + EventCalls(event, read, nodelete, answer)
    ensures MemoryOf(fs, state) == AfterEvent(old(MemoryOf(fs, state)), event, read, nodelete, answer)
    ensures ok <==> WentThrough(event, read, nodelete, answer)
  {
    hide ReadAsset, NotedAll;
    read, answer := Unreadable, None;
    match event
    case CreateOrUpdate(key) =>
      var found := fs.Read(key);
      read := found;
      if found.Unreadable? { return false, read, answer; }
      if found.Missing? { return true, read, answer; }
      state.watch.MarkUnsynced(key);
      fs.files := fs.files[key := found.asset];
      state.files := state.files[key := found.asset];
      var results := remote.UploadAssets([found.asset]);
      answer := results;
      if results.None? { return false, read, answer; }
      state.watch.RememberUploadErrors(results.value, "Upload");
      state.watch.MarkSynced(key);
      return true, read, answer;
    case Delete(key) =>
      state.watch.MarkUnsynced(key);
      fs.files := fs.files - {key};
      state.files := state.files - {key};
      if !nodelete {
        var results := remote.DeleteAssets([key]);
        answer := results;
        if results.None? { return false, read, answer; }
        state.watch.RememberUploadErrors(results.value, "Delete");
      }
      state.watch.MarkSynced(key);
      return true, read, answer;
  }

  /** An event never separates the remembered from the served files, touches its own
      key only, and leaves no key unsynced when it goes through. */
  lemma EventKeeps(m: Memory, event: FileEvent, read: ReadResult, nodelete: bool, answer: Option<seq<RemoteResult>>)
    ensures var after, key := AfterEvent(m, event, read, nodelete, answer), event.key;
            && (m.files.Keys == m.served.Keys ==> after.files.Keys == after.served.Keys)
            && after.files - {key} == m.files - {key} && after.served - {key} == m.served - {key}
            && after.unsynced - {key} == m.unsynced - {key}
            && (m.unsynced == {} && WentThrough(event, read, nodelete, answer) ==> after.unsynced == {})
  {
    hide NotedAll;
  }

  /** A file that was read and sent stays unsynced exactly when the call was refused.
      What the remote answered about it decides its error entry only: a file whose
      upload failed counts as synced. */
  lemma SentCountsAsSynced(m: Memory, key: string, asset: Asset, nodelete: bool, answer: Option<seq<RemoteResult>>)
    ensures var after := AfterEvent(m, CreateOrUpdate(key), Found(asset), nodelete, answer);
            && (key in after.unsynced <==> answer.None?)
            && (answer.Some? ==> forall i: nat :: LastAbout(answer.value, key, i) ==>
                  (key in after.errors <==> !answer.value[i].success))
  {
    if answer.Some? { LastAnswerDecides(m.errors, answer.value, "Upload", key); }
  }

  /** One refused asset of an answered call: in error, and yet synced. */
  lemma FailedIsSynced(asset: Asset)
    ensures var results := [RemoteResult(asset.key, false, [])];
            var after := AfterEvent(Memory(map[], map[], {}, map[]), CreateOrUpdate(asset.key), Found(asset), false,
                                    Some(results));
            asset.key in after.errors && asset.key !in after.unsynced
  {
    var results := [RemoteResult(asset.key, false, [])];
    SentCountsAsSynced(Memory(map[], map[], {}, map[]), asset.key, asset, false, Some(results));
    assert LastAbout(results, asset.key, 0);
  }

  /* ---------- the loop ---------- */

  datatype Tick = PollTick | FileTick(event: FileEvent)

  datatype End = Running | PollingFailed | EventFailed

  /** What was done at a tick. */
  datatype Entry =
    | Polled(before: Fs, after: Fs, served: map<string, Asset>, servedAfter: map<string, Asset>, setting: Setting,
             trace: Trace, ok: bool)
    | Handled(event: FileEvent, read: ReadResult, answer: Option<seq<RemoteResult>>, start: Memory, end: Memory)
    | Ignored

  /** The server when the loop begins: its files, and what polls are made with. */
  datatype Server = Server(first: Fs, served: map<string, Asset>, base: Setting)
  {
    predicate NoDelete() { base.options.nodelete }

    predicate FiltersOut(key: string) {
      Ignore.Apply([key], Plans.Identity, base.options.filters, base.user) == []
    }
  }

  /** The polls that failed since the last one that did not. */
  function FailuresInARow(log: seq<Entry>): nat {
    if log == [] then 0
    else
      var last := log[|log| - 1];
      if last.Polled? then if last.ok then 0 else FailuresInARow(log[..|log| - 1]) + 1
      else FailuresInARow(log[..|log| - 1])
  }

  /** The listing of the last poll that did not fail. */
  function LastListing(sv: Server, log: seq<Entry>): seq<Checksum> {
    if log == [] then sv.base.previous
    else
      var last := log[|log| - 1];
      if last.Polled? && last.ok then Visible(last.trace.listing, last.before, last.setting)
      else LastListing(sv, log[..|log| - 1])
  }

  /** The remembered and the served files after a log. */
  function Held(sv: Server, log: seq<Entry>): (map<string, Asset>, map<string, Asset>) {
    if log == [] then (sv.first.files, sv.served)
    else
      match log[|log| - 1]
      case Polled(_, after, _, servedAfter, _, _, _) => (after.files, servedAfter)
      case Handled(_, _, _, _, end) => (end.files, end.served)
      case Ignored => Held(sv, log[..|log| - 1])
  }

  function CallsOf(sv: Server, e: Entry): seq<Call> {
    match e
    case Polled(_, _, _, _, _, trace, _) => trace.calls
    case Handled(event, read, answer, _, _) => EventCalls(event, read, sv.NoDelete(), answer)
    case Ignored => []
  }

  function AllCalls(sv: Server, log: seq<Entry>): seq<Call> {
    if log == [] then [] else AllCalls(sv, log[..|log| - 1]) + CallsOf(sv, log[|log| - 1])
  }

  /** The tick was handled as it should: a poll compares with the last listing, while
      no key is unsynced and the same files are remembered and served; an event
      is handled unless its key is filtered out.  Either goes on from the files that
      the log left, on whatever disk. */
  ghost predicate EntryOk(sv: Server, log: seq<Entry>, tick: Tick, e: Entry) {
    match tick
    case PollTick =>
      && e.Polled? && e.setting == sv.base.(previous := LastListing(sv, log))
      && (e.before.files, e.served) == Held(sv, log)
      && e.before == sv.first.(files := e.before.files, disk := e.before.disk)
      && e.before.files.Keys == e.served.Keys && e.after.files.Keys == e.servedAfter.Keys
      && PollEffect(e.before, e.after, e.served, e.servedAfter, e.setting, e.trace)
      && (e.ok ==> Completed(e.before, e.setting, e.trace))
    case FileTick(event) =>
      if sv.FiltersOut(event.key) then e.Ignored?
      else
        && e.Handled? && e.event == event && (e.start.files, e.start.served) == Held(sv, log) && e.start.unsynced == {}
        && e.end == AfterEvent(e.start, event, e.read, sv.NoDelete(), e.answer)
  }

  ghost predicate LogOk(sv: Server, ticks: seq<Tick>, log: seq<Entry>) {
    && |log| <= |ticks|
    && forall i :: 0 <= i < |log| ==> EntryOk(sv, log[..i], ticks[i], log[i])
  }

  /** The server is as its log says. */
  ghost predicate Follows(sv: Server, fs: Fs, served: map<string, Asset>, before: seq<Call>, now: seq<Call>,
                          log: seq<Entry>) {
    && (fs.files, served) == Held(sv, log) && fs == sv.first.(files := fs.files, disk := fs.disk)
    && now == before + AllCalls(sv, log)
  }

  lemma OneMoreEntry(sv: Server, ticks: seq<Tick>, log: seq<Entry>, e: Entry)
    requires LogOk(sv, ticks, log) && |log| < |ticks| && EntryOk(sv, log, ticks[|log|], e)
    ensures LogOk(sv, ticks, log + [e])
    ensures forall i :: 0 <= i <= |log| ==> (log + [e])[..i] == log[..i]
    ensures FailuresInARow(log + [e]) == if !e.Polled? then FailuresInARow(log) else if e.ok then 0
                                         else FailuresInARow(log) + 1
    ensures LastListing(sv, log + [e])
            == if e.Polled? && e.ok then Visible(e.trace.listing, e.before, e.setting) else LastListing(sv, log)
  {
    hide EntryOk, Visible;
    var all := log + [e];
    assert all[..|log|] == log;
    forall i | 0 <= i < |all| ensures EntryOk(sv, all[..i], ticks[i], all[i]) {
      if i < |log| { assert all[..i] == log[..i] && all[i] == log[i]; }
    }
  }

  lemma OneMoreFollows(sv: Server, before: seq<Call>, now: seq<Call>, log: seq<Entry>, e: Entry,
                       files: map<string, Asset>, served: map<string, Asset>)
    requires now == before + AllCalls(sv, log)
    requires match e
             case Polled(_, after, _, servedAfter, _, _, _) => files == after.files && served == servedAfter
             case Handled(_, _, _, _, end) => files == end.files && served == end.served
             case Ignored => (files, served) == Held(sv, log)
    ensures (files, served) == Held(sv, log + [e])
    ensures now + CallsOf(sv, e) == before + AllCalls(sv, log + [e])
  {
    hide CallsOf;
    assert (log + [e])[..|log|] == log;
  }

  lemma NoEntries(sv: Server, ticks: seq<Tick>, calls: seq<Call>)
    ensures LogOk(sv, ticks, []) && LastListing(sv, []) == sv.base.previous && FailuresInARow([]) == 0
    ensures Follows(sv, sv.first, sv.served, calls, calls, [])
  {}

  /** An event that did not go through. */
  predicate EventFails(sv: Server, e: Entry) {
    e.Handled? && !WentThrough(e.event, e.read, sv.NoDelete(), e.answer)
  }

  /** Anything may happen to the disk between two ticks. */
  method UserEdits(fs: ThemeFileSystem)
    modifies fs`disk
  {
    fs.disk := *;
  }

  /** One poll of the loop, with its entry. */
  method PollOnce(fs: ThemeFileSystem, state: AppState, remote: RemoteTheme, sv: Server, ghost calls: seq<Call>,
                  ghost log: seq<Entry>, checksums: seq<Checksum>)
      returns (latest: Option<seq<Checksum>>, ghost e: Entry)
    requires Follows(sv, fs.Now(), state.files, calls, remote.calls, log)
    requires fs.files.Keys == state.files.Keys && state.watch.unsynced == sv.base.unsynced && fs.codec == sv.base.codec
    requires checksums == LastListing(sv, log)
    modifies fs, state, remote
    ensures Follows(sv, fs.Now(), state.files, calls, remote.calls, log + [e]) && fs.files.Keys == state.files.Keys
    ensures EntryOk(sv, log, PollTick, e) && e.Polled? && e.ok == latest.Some?
    ensures latest.Some? ==> latest.value == Visible(e.trace.listing, e.before, e.setting)
  {
    hide PollEffect, Completed, Visible, LastListing, Held, AllCalls;
    ghost var before, served := fs.Now(), state.files;
    ghost var setting, called := sv.base.(previous := checksums), remote.calls;
    ghost var trace;
    latest, trace := Poll(fs, state, remote, sv.base.options, checksums, sv.base.user);
    PollKeepsRest(before, fs.Now(), served, state.files, setting, trace);
    e := Polled(before, fs.Now(), served, state.files, setting, trace, latest.Some?);
    OneMoreFollows(sv, calls, called, log, e, fs.files, state.files);
  }

  /** One event of the loop, with its entry. */
  method EventOnce(fs: ThemeFileSystem, state: AppState, remote: RemoteTheme, sv: Server, ghost calls: seq<Call>,
                   ghost log: seq<Entry>, event: FileEvent)
      returns (ok: bool, ghost e: Entry)
    requires Follows(sv, fs.Now(), state.files, calls, remote.calls, log)
    requires fs.files.Keys == state.files.Keys && state.watch.unsynced == {}
    modifies fs, state, state.watch, remote
    ensures Follows(sv, fs.Now(), state.files, calls, remote.calls, log + [e]) && fs.files.Keys == state.files.Keys
    ensures ok ==> state.watch.unsynced == {}
    ensures EntryOk(sv, log, FileTick(event), e) && !e.Polled?
    ensures ok <==> !EventFails(sv, e)
  {
    hide Ignore.Apply, AfterEvent, WentThrough, Held, AllCalls, EventCalls;
    ghost var called := remote.calls;
    if Ignore.Apply([event.key], Plans.Identity, sv.base.options.filters, sv.base.user) == [] {
      OneMoreFollows(sv, calls, called, log, Ignored, fs.files, state.files);
      return true, Ignored;
    }
    ghost var start := MemoryOf(fs, state);
    ghost var read, answer;
    ok, read, answer := HandleFileEvent(fs, state, remote, sv.base.options.nodelete, event);
    EventKeeps(start, event, read, sv.base.options.nodelete, answer);
    e := Handled(event, read, answer, start, MemoryOf(fs, state));
    OneMoreFollows(sv, calls, called, log, e, fs.files, state.files);
  }

  /** Any run of file events and polls.  The log has one entry for every tick that was
      reached, made as it should be, and tells what is remembered and served and
      which calls were made; no key is unsynced when a poll or an event begins.  The
      server ends when an event fails, or at the fifth poll in a row that fails,
      and not before. */
  method ServeTicks(fs: ThemeFileSystem, state: AppState, remote: RemoteTheme, base: Setting, ticks: seq<Tick>)
      returns (end: End, ghost log: seq<Entry>)
    requires fs.files.Keys == state.files.Keys && state.watch.unsynced == base.unsynced == {} && fs.codec == base.codec
    modifies fs, state, state.watch, remote
    ensures var sv := Server(old(fs.Now()), old(state.files), base);
            && LogOk(sv, ticks, log)
            && Follows(sv, fs.Now(), state.files, old(remote.calls), remote.calls, log)
            && (forall i :: 0 <= i < |log| - 1 ==> !EventFails(sv, log[i]))
            && (end.EventFailed? <==> |log| > 0 && EventFails(sv, log[|log| - 1]))
    ensures fs.files.Keys == state.files.Keys
    ensures end.Running? ==> |log| == |ticks| && state.watch.unsynced == {}
    ensures end.PollingFailed? <==> FailuresInARow(log) == MaxPollingFailures
    ensures forall i :: 0 <= i < |log| ==> FailuresInARow(log[..i]) < MaxPollingFailures
  {
    hide EntryOk, LogOk, LastListing, FailuresInARow, Visible, WentThrough, Held, AllCalls;
    var sv := Server(fs.Now(), state.files, base);
    var checksums, failures := base.previous, 0;
    end, log := Running, [];
    NoEntries(sv, ticks, remote.calls);
    for i := 0 to |ticks|
      invariant |log| == i && LogOk(sv, ticks, log)
      invariant Follows(sv, fs.Now(), state.files, old(remote.calls), remote.calls, log)
      invariant checksums == LastListing(sv, log) && failures == FailuresInARow(log)
      invariant failures < MaxPollingFailures && end.Running?
      invariant forall j :: 0 <= j < |log| ==> !EventFails(sv, log[j])
      invariant forall j :: 0 <= j < |log| ==> FailuresInARow(log[..j]) < MaxPollingFailures
      invariant fs.files.Keys == state.files.Keys && state.watch.unsynced == {}
    {
      UserEdits(fs);
      ghost var e: Entry;
      match ticks[i] {
        case PollTick =>
          var latest;
          latest, e := PollOnce(fs, state, remote, sv, old(remote.calls), log, checksums);
          if latest.Some? {
            checksums, failures := latest.value, 0;
          } else {
            failures := failures + 1;
            if failures >= MaxPollingFailures { end := PollingFailed; }
          }
        case FileTick(event) =>
          var ok;
          ok, e := EventOnce(fs, state, remote, sv, old(remote.calls), log, event);
          if !ok { end := EventFailed; }
      }
      OneMoreEntry(sv, ticks, log, e);
      log := log + [e];
      if !end.Running? { return; }
    }
  }

  /** In every run a poll touches only JSON files that both filters admit, and writes
      over no remembered file that was edited on disk; and after every tick the same
      files are remembered and served. */
  lemma RunIsSafe(sv: Server, ticks: seq<Tick>, log: seq<Entry>, i: nat)
    requires LogOk(sv, ticks, log) && i < |log|
    requires sv.first.files.Keys == sv.served.Keys
    ensures log[i].Polled? ==>
              forall key :: key in Touched(log[i].trace) ==>
                && EndsWith(key, ".json") && key !in sv.base.unsynced
                && Ignore.Admits(key, sv.first.filters, sv.base.user)
                && Ignore.Admits(key, sv.base.options.filters, sv.base.user)
                && (key in AssetKeys(log[i].trace.got) + TornKey(log[i].trace) ==>
                      !Diverged(log[i].before, key, sv.base.codec))
    ensures Held(sv, log[..i + 1]).0.Keys == Held(sv, log[..i + 1]).1.Keys
    decreases i
  {
    hide PollEffect, Completed, Diverged, Ignore.Admits, LastListing, AfterEvent, Touched, AssetKeys, TornKey;
    var e := log[i];
    assert EntryOk(sv, log[..i], ticks[i], e);
    assert log[..i + 1][..i] == log[..i];
    if i > 0 { RunIsSafe(sv, ticks, log, i - 1); } else { assert log[..0] == []; }
    if e.Polled? {
      forall key | key in Touched(e.trace)
        ensures Pollable(key, e.before, e.setting)
        ensures key in AssetKeys(e.trace.got) + TornKey(e.trace) ==> !Diverged(e.before, key, e.setting.codec)
      {
        PollTouches(e.before, e.after, e.served, e.servedAfter, e.setting, e.trace, key);
      }
    } else if e.Handled? {
      EventKeeps(e.start, e.event, e.read, sv.NoDelete(), e.answer);
    }
  }
}
