/** The per-IP sliding-window limiter: a pruned, expiring log in Redis, proved to decide
    as if it counted the complete history of accepted requests. */
module RateLimiterSpec {
  import opened Common
  import opened Decimal

  /** One sorted set: members with their scores, and when the key expires. */
  datatype Log = Log(entries: map<string, int>, deadline: Option<int>)
  const EMPTY := Log(map[], None)

  /** An accepted request: its time, the limiter's request number, and the member added for it. */
  datatype Add = Add(time: nat, number: nat, member: string)

  /** `history` and `granted` are for the proof: every addition ever made, and the times of
      those whose reply arrived. */
  datatype Client = Client(log: Log, history: seq<Add>, granted: seq<nat>)
  const NEW_CLIENT := Client(EMPTY, [], [])

  /** `now` and `server` are the limiter's and the Redis server's clock at the last request. */
  datatype State = State(counter: nat, now: nat, server: int, clients: map<string, Client>)

  datatype Reply = Delivered | Lost | NotRun

  /** `expired`: Redis drops the key before the script runs. `reply`: whether the script runs
      and its reply arrives. */
  datatype Request = Request(ip: string, now: nat, server: int, expired: bool, reply: Reply)

  function Member(now: nat, number: nat): string {
    Print(now) + ":" + Print(number)
  }

  function Key(ip: string): string {
    "ratelimit:ip:" + ip
  }

  function Pruned(entries: map<string, int>, start: int): map<string, int> {
    map m | m in entries && entries[m] > start :: entries[m]
  }

  /** The Lua script: prune, count, and add unless the log is full. */
  function Script(log: Log, now: int, server: int, window: int, limit: int, member: string): (r: (Log, bool)) {
    var kept := Pruned(log.entries, now - window);
    if |kept| >= limit then (Log(kept, if kept == map[] then None else log.deadline), false)
    else (Log(kept[member := now], Some(server + window)), true)
  }

  function Of(q: State, key: string): Client {
    if key in q.clients then q.clients[key] else NEW_CLIENT
  }

  /** The log the script finds. */
  function Found(q: State, r: Request): Log {
    if r.expired then EMPTY else Of(q, Key(r.ip)).log
  }

  function Decided(q: State, r: Request, window: int, limit: int): (Log, bool) {
    Script(Found(q, r), r.now, r.server, window, limit, Member(r.now, q.counter))
  }

  /** The client after the script has run on `found`. */
  function After(c: Client, found: Log, counter: nat, now: nat, server: int, window: int, limit: int, lost: bool): Client {
    var (log, ok) := Script(found, now, server, window, limit, Member(now, counter));
    Client(log, if ok then c.history + [Add(now, counter, Member(now, counter))] else c.history, if ok && !lost then c.granted + [now] else c.granted)
  }

  /** `allow`, once Redis is reached. */
  function Step(q: State, r: Request, window: int, limit: int): State {
    var c := After(Of(q, Key(r.ip)), Found(q, r), q.counter, r.now, r.server, window, limit, r.reply == Lost);
    State(q.counter + 1, r.now, r.server, if r.reply == NotRun then q.clients else q.clients[Key(r.ip) := c])
  }

  datatype Trace = Trace(requests: seq<Request>, states: seq<State>)

  ghost predicate Link(t: Trace, n: nat, window: int, limit: int)
    requires n < |t.requests| == |t.states| - 1
  {
    Step(t.states[n], t.requests[n], window, limit) == t.states[n + 1]
  }

  /** A run from empty logs. Nothing is assumed of the clocks or of when keys expire. */
  ghost predicate IsRun(t: Trace, window: int, limit: int) {
    && |t.requests| == |t.states| - 1
    && t.states[0].counter == 0 && t.states[0].clients == map[]
    && forall n: nat {:trigger Link(t, n, window, limit)} :: n < |t.requests| ==> Link(t, n, window, limit)
  }

  // ---- members are never shared ----

  lemma DigitsNoColon(n: nat)
    ensures ':' !in Print(n)
  {
    ValueOfPrint(n);
  }

  /** Request numbers keep members apart, whatever the clock says. */
  lemma MemberInjective(t: nat, n: nat, t': nat, n': nat)
    requires Member(t, n) == Member(t', n')
    ensures t == t' && n == n'
  {
    DigitsNoColon(t);
    DigitsNoColon(t');
    var a, b := Print(t), Print(t');
    var m := Member(t, n);
    assert m[|a|] == ':' && m[|b|] == ':';
    assert forall i | 0 <= i < |a| :: m[i] == a[i];
    assert forall i | 0 <= i < |b| :: m[i] == b[i];
    assert a == Member(t, n)[..|a|] && b == Member(t', n')[..|b|];
    assert Print(n) == Member(t, n)[|a| + 1..] && Print(n') == Member(t', n')[|b| + 1..];
    PrintInjective(t, t');
    PrintInjective(n, n');
  }

  // ---- counting the complete history ----

  function Times(h: seq<Add>): (ts: seq<nat>)
    ensures |ts| == |h| && forall i | 0 <= i < |h| :: ts[i] == h[i].time
  {
    seq(|h|, i requires 0 <= i < |h| => h[i].time)
  }

  /** How many of the times lie in the half-open interval from `lo` to `hi`. */
  function Within(ts: seq<nat>, lo: int, hi: int): (n: nat)
    ensures n <= |ts|
  {
    if ts == [] then 0
    else Within(ts[..|ts| - 1], lo, hi) + if lo < ts[|ts| - 1] <= hi then 1 else 0
  }

  /** How many of the times lie after `start`. */
  function Later(ts: seq<nat>, start: int): (n: nat)
    ensures n <= |ts|
  {
    if ts == [] then 0 else Later(ts[..|ts| - 1], start) + if start < ts[|ts| - 1] then 1 else 0
  }

  /** What a log that never forgets would hold after `start`. */
  ghost function Recent(h: seq<Add>, start: int): map<string, int> {
    if h == [] then map[]
    else
      var a := h[|h| - 1];
      var r := Recent(h[..|h| - 1], start);
      if a.time > start then r[a.member := a.time] else r
  }

  /** Additions of one limiter, numbered in order and below `counter`. */
  predicate Made(h: seq<Add>, counter: nat)
    decreases |h|
  {
    h != [] ==>
      var a := h[|h| - 1];
      a.number < counter && a.member == Member(a.time, a.number) && Made(h[..|h| - 1], a.number)
  }

  lemma {:induction false} MadeNumber(h: seq<Add>, counter: nat, i: nat)
    requires Made(h, counter) && i < |h|
    ensures h[i].number < counter
    decreases |h|
  {
    var k := |h| - 1;
    if i < k { MadeNumber(h[..k], h[k].number, i); }
  }

  /** The member of a new request has not been used. */
  lemma {:induction false} NewMember(h: seq<Add>, counter: nat, now: nat, number: nat, start: int)
    requires Made(h, counter) && counter <= number
    ensures Member(now, number) !in Recent(h, start)
    decreases |h|
  {
    if h != [] {
      var a := h[|h| - 1];
      NewMember(h[..|h| - 1], a.number, now, number, start);
      if Member(now, number) == a.member { MemberInjective(now, number, a.time, a.number); }
    }
  }

  lemma {:induction false} RecentHas(h: seq<Add>, counter: nat, start: int, i: nat)
    requires Made(h, counter) && i < |h|
    ensures h[i].member in Recent(h, start) <==> h[i].time > start
    ensures h[i].time > start ==> Recent(h, start)[h[i].member] == h[i].time
    decreases |h|
  {
    var k := |h| - 1;
    NewMember(h[..k], h[k].number, h[k].time, h[k].number, start);
    NewMember(h[..k], h[k].number, h[k].time, h[k].number, -1);
    if i < k {
      RecentHas(h[..k], h[k].number, start, i);
      RecentHas(h[..k], h[k].number, -1, i);
    }
  }

  lemma {:induction false} RecentFrom(h: seq<Add>, start: int, m: string)
    requires m in Recent(h, start)
    ensures exists i :: 0 <= i < |h| && m == h[i].member && h[i].time > start
    decreases |h|
  {
    var k := |h| - 1;
    if m != h[k].member || h[k].time <= start {
      RecentFrom(h[..k], start, m);
      var i :| 0 <= i < k && m == h[..k][i].member && h[..k][i].time > start;
      assert h[..k][i] == h[i];
    }
  }

  lemma {:induction false} RecentSize(h: seq<Add>, counter: nat, start: int)
    requires Made(h, counter)
    ensures |Recent(h, start)| == Later(Times(h), start)
    decreases |h|
  {
    if h != [] {
      var k := |h| - 1;
      RecentSize(h[..k], h[k].number, start);
      NewMember(h[..k], h[k].number, h[k].time, h[k].number, start);
      assert Times(h)[..k] == Times(h[..k]);
    }
  }

  // ---- what a log holds on any run ----

  /** Everything ever added, with its time. */
  ghost function All(h: seq<Add>): map<string, int> { Recent(h, -1) }

  lemma {:induction false} RecentIsPruned(h: seq<Add>, counter: nat, start: int)
    requires Made(h, counter)
    ensures Recent(h, start) == Pruned(All(h), start)
    decreases |h|
  {
    if h != [] {
      var k := |h| - 1;
      RecentIsPruned(h[..k], h[k].number, start);
      NewMember(h[..k], h[k].number, h[k].time, h[k].number, -1);
    }
  }

  /** The log holds nothing that was not added, and scores are the times of addition. */
  ghost predicate Logs(h: seq<Add>, entries: map<string, int>) {
    forall m | m in entries :: m in All(h) && entries[m] == All(h)[m]
  }

  /** On every run: additions are numbered in order, and the log holds nothing else. */
  ghost predicate Genuine(c: Client, counter: nat) {
    Made(c.history, counter) && Logs(c.history, c.log.entries)
  }

  /** No addition after `start` is missing from the log. */
  ghost predicate Whole(h: seq<Add>, entries: map<string, int>, start: int) {
    Recent(h, start).Keys <= entries.Keys
  }

  /** The script counts part of the recent history, and all of it exactly if the log is whole. */
  lemma KeptIsRecent(h: seq<Add>, counter: nat, entries: map<string, int>, start: int)
    requires Made(h, counter) && Logs(h, entries)
    ensures var kept, due := |Pruned(entries, start)|, Later(Times(h), start);
            kept <= due && (kept == due <==> Whole(h, entries, start))
  {
    var recent, kept := Recent(h, start), Pruned(entries, start);
    RecentSize(h, counter, start);
    RecentIsPruned(h, counter, start);
    assert kept.Keys <= recent.Keys;
    SubsetCard(kept.Keys, recent.Keys);
    assert recent.Keys <= kept.Keys <==> recent.Keys <= entries.Keys;
  }

  lemma WholeByIndex(h: seq<Add>, counter: nat, entries: map<string, int>, start: int)
    requires Made(h, counter)
    ensures Whole(h, entries, start) <==> forall i | 0 <= i < |h| && h[i].time > start :: h[i].member in entries
  {
    forall i | 0 <= i < |h| && h[i].time > start ensures h[i].member in Recent(h, start) { RecentHas(h, counter, start, i); }
    if forall i | 0 <= i < |h| && h[i].time > start :: h[i].member in entries {
      forall m | m in Recent(h, start) ensures m in entries {
        RecentFrom(h, start, m);
        var i :| 0 <= i < |h| && m == h[i].member && h[i].time > start;
      }
    }
  }

  /** A later start asks for less. */
  lemma WholeLater(h: seq<Add>, counter: nat, entries: map<string, int>, start: int, start': int)
    requires Made(h, counter) && Whole(h, entries, start) && start <= start'
    ensures Whole(h, entries, start')
  {
    RecentIsPruned(h, counter, start);
    RecentIsPruned(h, counter, start');
  }

  lemma SubsetCard<T>(a: set<T>, b: set<T>)
    requires a <= b
    ensures |a| <= |b| && (|a| == |b| <==> b <= a)
  {
    assert b == a + (b - a);
    if |a| == |b| { assert |b - a| == 0; }
  }

  // ---- one request ----

  ghost predicate GenuineAt(q: State, key: string) {
    Genuine(Of(q, key), q.counter)
  }

  /** The script finds every addition of the client's last window. */
  ghost predicate FindsAll(q: State, r: Request, window: int) {
    Whole(Of(q, Key(r.ip)).history, Found(q, r).entries, r.now - window)
  }

  /** The verdict a log that never forgets would give. */
  ghost predicate Due(q: State, r: Request, window: int, limit: int) {
    Later(Times(Of(q, Key(r.ip)).history), r.now - window) < limit
  }

  lemma FoundCount(q: State, r: Request, window: int)
    requires GenuineAt(q, Key(r.ip))
    ensures var kept, due := |Pruned(Found(q, r).entries, r.now - window)|, Later(Times(Of(q, Key(r.ip)).history), r.now - window);
            kept <= due && (kept == due <==> FindsAll(q, r, window))
  {
    KeptIsRecent(Of(q, Key(r.ip)).history, q.counter, Found(q, r).entries, r.now - window);
  }

  lemma VerdictByCount(q: State, r: Request, window: int, limit: int, whole: bool)
    requires var kept, due := |Pruned(Found(q, r).entries, r.now - window)|, Later(Times(Of(q, Key(r.ip)).history), r.now - window);
             kept <= due && (whole ==> kept == due)
    ensures whole ==> (Decided(q, r, window, limit).1 <==> Due(q, r, window, limit))
    ensures Due(q, r, window, limit) ==> Decided(q, r, window, limit).1
    ensures (Decided(q, r, window, limit).1 <==> Due(q, r, window, limit))
            <==> (!Due(q, r, window, limit) ==> |Pruned(Found(q, r).entries, r.now - window)| >= limit)
  {
    assert Decided(q, r, window, limit).1 <==> |Pruned(Found(q, r).entries, r.now - window)| < limit;
  }

  /** Main result for one request, with any clocks and any expiry: it is decided by the complete
      history if the script finds all of the last window, and otherwise exactly if so much
      was found, or so little was due, that the missing additions make no difference. */
  lemma Verdict(q: State, r: Request, window: int, limit: int)
    requires GenuineAt(q, Key(r.ip))
    ensures FindsAll(q, r, window) ==> (Decided(q, r, window, limit).1 <==> Due(q, r, window, limit))
    ensures Due(q, r, window, limit) ==> Decided(q, r, window, limit).1
    ensures (Decided(q, r, window, limit).1 <==> Due(q, r, window, limit))
            <==> (!Due(q, r, window, limit) ==> |Pruned(Found(q, r).entries, r.now - window)| >= limit)
  {
    FoundCount(q, r, window);
    VerdictByCount(q, r, window, limit, FindsAll(q, r, window));
  }

  lemma {:induction false} LaterNone(ts: seq<nat>, start: int)
    requires forall i | 0 <= i < |ts| :: ts[i] <= start
    ensures Later(ts, start) == 0
    decreases |ts|
  {
    if ts != [] { LaterNone(ts[..|ts| - 1], start); }
  }

  /** A dropped key is found empty: nothing of the window may then be left in the history. */
  lemma FindsAllExpired(q: State, r: Request, window: int)
    requires r.expired && GenuineAt(q, Key(r.ip))
    ensures FindsAll(q, r, window) <==> Later(Times(Of(q, Key(r.ip)).history), r.now - window) == 0
  {
    var h := Of(q, Key(r.ip)).history;
    RecentSize(h, q.counter, r.now - window);
    assert |Recent(h, r.now - window).Keys| == |Recent(h, r.now - window)|;
  }

  /** With a log that was whole, an expired key changes the verdict exactly when the last
      window is full. */
  lemma ExpiryVerdict(q: State, r: Request, window: int, limit: int)
    requires limit > 0 && GenuineAt(q, Key(r.ip)) && Whole(Of(q, Key(r.ip)).history, Of(q, Key(r.ip)).log.entries, r.now - window)
    ensures (Decided(q, r, window, limit).1 <==> Due(q, r, window, limit)) <==> (r.expired ==> Due(q, r, window, limit))
  {
    Verdict(q, r, window, limit);
  }

  // ---- keeping the log whole ----

  lemma AddLogs(h: seq<Add>, counter: nat, entries: map<string, int>, start: int, now: nat)
    requires Made(h, counter) && Logs(h, entries)
    ensures var a := Add(now, counter, Member(now, counter));
            && Logs(h, Pruned(entries, start)) && Made(h, counter + 1) && Made(h + [a], counter + 1)
            && Logs(h + [a], Pruned(entries, start)[a.member := a.time])
  {
    var a := Add(now, counter, Member(now, counter));
    assert (h + [a])[..|h|] == h;
    NewMember(h, counter, now, counter, -1);
    assert All(h + [a]) == All(h)[a.member := a.time];
  }

  lemma AfterGenuine(c: Client, found: Log, counter: nat, now: nat, server: int, window: int, limit: int, lost: bool)
    requires Genuine(c, counter) && Logs(c.history, found.entries)
    ensures Genuine(After(c, found, counter, now, server, window, limit, lost), counter + 1)
  {
    AddLogs(c.history, counter, found.entries, now - window, now);
    AfterIs(c, found, counter, now, server, window, limit, lost);
  }

  /** The history and the entries after the script. */
  lemma AfterIs(c: Client, found: Log, counter: nat, now: nat, server: int, window: int, limit: int, lost: bool)
    ensures var d := After(c, found, counter, now, server, window, limit, lost);
            var kept, a := Pruned(found.entries, now - window), Add(now, counter, Member(now, counter));
            if |kept| >= limit then d.history == c.history && d.log.entries == kept
            else d.history == c.history + [a] && d.log.entries == kept[a.member := a.time]
  { }

  lemma StepGenuine(q: State, r: Request, window: int, limit: int, key: string)
    requires GenuineAt(q, key)
    ensures GenuineAt(Step(q, r, window, limit), key)
  {
    if key == Key(r.ip) && r.reply != NotRun {
      AfterGenuine(Of(q, key), Found(q, r), q.counter, r.now, r.server, window, limit, r.reply == Lost);
    }
  }

  /** After the script the log is whole for its window exactly if what it found was. */
  lemma AfterWhole(c: Client, found: Log, counter: nat, now: nat, server: int, window: int, limit: int, lost: bool)
    requires Made(c.history, counter) && Logs(c.history, found.entries) && window > 0
    ensures var d := After(c, found, counter, now, server, window, limit, lost);
            Whole(d.history, d.log.entries, now - window) <==> Whole(c.history, found.entries, now - window)
  {
    var h, start := c.history, now - window;
    var a, kept := Add(now, counter, Member(now, counter)), Pruned(found.entries, start);
    AfterIs(c, found, counter, now, server, window, limit, lost);
    PrunedWhole(h, counter, found.entries, start);
    NewMember(h, counter, now, counter, start);
    AddWhole(h, kept, start, a);
  }

  lemma PrunedWhole(h: seq<Add>, counter: nat, entries: map<string, int>, start: int)
    requires Made(h, counter) && Logs(h, entries)
    ensures Whole(h, Pruned(entries, start), start) <==> Whole(h, entries, start)
  {
    RecentIsPruned(h, counter, start);
    var kept := Pruned(entries, start);
    assert forall m | m in Recent(h, start) :: m in kept <==> m in entries;
    if Whole(h, entries, start) { assert forall m | m in Recent(h, start).Keys :: m in entries.Keys; }
    if Whole(h, kept, start) { assert forall m | m in Recent(h, start).Keys :: m in kept.Keys; }
  }

  lemma AddWhole(h: seq<Add>, entries: map<string, int>, start: int, a: Add)
    requires a.member !in Recent(h, start) && a.time > start
    ensures Whole(h + [a], entries[a.member := a.time], start) <==> Whole(h, entries, start)
  {
    assert (h + [a])[..|h|] == h;
    assert Recent(h + [a], start).Keys == Recent(h, start).Keys + {a.member};
    assert entries[a.member := a.time].Keys == entries.Keys + {a.member};
  }

  /** Every client's log holds all additions of the window that ends at the current time. */
  ghost predicate WholeAt(q: State, key: string, window: int) {
    Whole(Of(q, key).history, Of(q, key).log.entries, q.now - window)
  }

  /** Whether a request leaves a client's log whole, judged before it runs: the caller's
      script must find everything, and in any other log nothing newly inside the window
      may be missing. */
  ghost predicate KeepsWhole(q: State, r: Request, window: int, key: string) {
    if key == Key(r.ip) && r.reply != NotRun then FindsAll(q, r, window)
    else Whole(Of(q, key).history, Of(q, key).log.entries, r.now - window)
  }

  lemma StepClient(q: State, r: Request, window: int, limit: int, key: string)
    ensures Of(Step(q, r, window, limit), key)
            == if key == Key(r.ip) && r.reply != NotRun
               then After(Of(q, key), Found(q, r), q.counter, r.now, r.server, window, limit, r.reply == Lost)
               else Of(q, key)
  { }

  lemma OtherWhole(q: State, r: Request, window: int, limit: int, key: string)
    requires !(key == Key(r.ip) && r.reply != NotRun)
    ensures WholeAt(Step(q, r, window, limit), key, window)
            <==> Whole(Of(q, key).history, Of(q, key).log.entries, r.now - window)
  {
    StepClient(q, r, window, limit, key);
  }

  lemma CallerWindow(q: State, r: Request, window: int, limit: int)
    requires r.reply != NotRun
    ensures var d := After(Of(q, Key(r.ip)), Found(q, r), q.counter, r.now, r.server, window, limit, r.reply == Lost);
            WholeAt(Step(q, r, window, limit), Key(r.ip), window) <==> Whole(d.history, d.log.entries, r.now - window)
  {
    StepClient(q, r, window, limit, Key(r.ip));
  }

  lemma CallerWhole(q: State, r: Request, window: int, limit: int)
    requires window > 0 && GenuineAt(q, Key(r.ip)) && r.reply != NotRun
    ensures WholeAt(Step(q, r, window, limit), Key(r.ip), window) <==> FindsAll(q, r, window)
  {
    var c, found := Of(q, Key(r.ip)), Found(q, r);
    var d := After(c, found, q.counter, r.now, r.server, window, limit, r.reply == Lost);
    calc {
      WholeAt(Step(q, r, window, limit), Key(r.ip), window);
    <==> { CallerWindow(q, r, window, limit); }
      Whole(d.history, d.log.entries, r.now - window);
    <==> { AfterWhole(c, found, q.counter, r.now, r.server, window, limit, r.reply == Lost); }
      FindsAll(q, r, window);
    }
  }

  /** With any clock and any expiry. */
  lemma StepWhole(q: State, r: Request, window: int, limit: int, key: string)
    requires window > 0 && GenuineAt(q, key)
    ensures WholeAt(Step(q, r, window, limit), key, window) <==> KeepsWhole(q, r, window, key)
  {
    if key == Key(r.ip) && r.reply != NotRun {
      CallerWhole(q, r, window, limit);
    } else {
      OtherWhole(q, r, window, limit, key);
    }
  }

  ghost predicate AllWhole(q: State, window: int) {
    forall key: string :: WholeAt(q, key, window)
  }

  ghost predicate AllGenuine(q: State) {
    forall key: string :: GenuineAt(q, key)
  }

  /** Main result: while the clock does not go back, a step keeps all logs whole if and only
      if it does not run on an expired key that still had additions in the window. */
  lemma StepAgrees(q: State, r: Request, window: int, limit: int)
    requires window > 0 && AllGenuine(q) && AllWhole(q, window) && q.now <= r.now
    ensures AllWhole(Step(q, r, window, limit), window)
            <==> (r.expired && r.reply != NotRun ==> Later(Times(Of(q, Key(r.ip)).history), r.now - window) == 0)
  {
    forall key: string ensures WholeAt(Step(q, r, window, limit), key, window)
        <==> (key == Key(r.ip) && r.expired && r.reply != NotRun ==> Later(Times(Of(q, key).history), r.now - window) == 0)
    {
      assert GenuineAt(q, key) && WholeAt(q, key, window);
      LogAgrees(q, r, window, limit, key);
    }
  }

  /** The same for one client's log. */
  lemma LogAgrees(q: State, r: Request, window: int, limit: int, key: string)
    requires window > 0 && GenuineAt(q, key) && WholeAt(q, key, window) && q.now <= r.now
    ensures WholeAt(Step(q, r, window, limit), key, window)
            <==> (key == Key(r.ip) && r.expired && r.reply != NotRun ==> Later(Times(Of(q, key).history), r.now - window) == 0)
  {
    StepWhole(q, r, window, limit, key);
    StillWhole(q, r, window, key);
    WholeIsKept(q, r, window, key);
  }

  lemma StillWhole(q: State, r: Request, window: int, key: string)
    requires GenuineAt(q, key) && WholeAt(q, key, window) && q.now <= r.now
    ensures Whole(Of(q, key).history, Of(q, key).log.entries, r.now - window)
  {
    WholeLater(Of(q, key).history, q.counter, Of(q, key).log.entries, q.now - window, r.now - window);
  }

  lemma WholeIsKept(q: State, r: Request, window: int, key: string)
    requires GenuineAt(q, key) && Whole(Of(q, key).history, Of(q, key).log.entries, r.now - window)
    ensures KeepsWhole(q, r, window, key)
            <==> (key == Key(r.ip) && r.expired && r.reply != NotRun ==> Later(Times(Of(q, key).history), r.now - window) == 0)
  {
    if key == Key(r.ip) && r.expired { FindsAllExpired(q, r, window); }
  }

  /** The matching statement for a clock that goes back: all logs stay whole if and only if
      no addition between the new start of the window and the old one has been dropped. */
  lemma StepBackAgrees(q: State, r: Request, window: int, limit: int)
    requires window > 0 && AllGenuine(q) && AllWhole(q, window) && r.now < q.now && !r.expired
    ensures AllWhole(Step(q, r, window, limit), window) <==> forall key: string :: NothingDropped(q, key, r, window)
  {
    var q' := Step(q, r, window, limit);
    forall key: string ensures WholeAt(q', key, window) <==> NothingDropped(q, key, r, window) {
      assert GenuineAt(q, key) && WholeAt(q, key, window);
      StepWhole(q, r, window, limit, key);
      NoneBetween(Of(q, key).history, q.counter, Of(q, key).log.entries, r.now - window, q.now - window);
    }
  }

  lemma NoneBetween(h: seq<Add>, counter: nat, entries: map<string, int>, start: int, end: int)
    requires Made(h, counter) && Whole(h, entries, end)
    ensures Whole(h, entries, start) <==> forall i | 0 <= i < |h| && start < h[i].time <= end :: h[i].member in entries
  {
    WholeByIndex(h, counter, entries, start);
    WholeByIndex(h, counter, entries, end);
  }

  ghost predicate NothingDropped(q: State, key: string, r: Request, window: int) {
    var h := Of(q, key).history;
    forall i | 0 <= i < |h| && r.now - window < h[i].time <= q.now - window :: h[i].member in Of(q, key).log.entries
  }

  // ---- whole runs ----

  lemma NewGenuine(q: State, key: string)
    requires q.clients == map[]
    ensures GenuineAt(q, key)
  {
    assert Of(q, key) == NEW_CLIENT;
  }

  lemma {:induction false} RunGenuine(t: Trace, n: nat, window: int, limit: int, key: string)
    requires IsRun(t, window, limit) && n <= |t.requests|
    ensures GenuineAt(t.states[n], key)
  {
    if n == 0 {
      NewGenuine(t.states[0], key);
    } else {
      RunGenuine(t, n - 1, window, limit, key);
      assert Link(t, n - 1, window, limit);
      StepGenuine(t.states[n - 1], t.requests[n - 1], window, limit, key);
    }
  }

  lemma {:induction false} RunCounter(t: Trace, n: nat, window: int, limit: int)
    requires IsRun(t, window, limit) && n <= |t.requests|
    ensures t.states[n].counter == n
  {
    if n > 0 {
      RunCounter(t, n - 1, window, limit);
      assert Link(t, n - 1, window, limit);
    }
  }

  /** A request that drops an addition of that time from a client's log. */
  predicate Drops(r: Request, key: string, time: nat, window: int) {
    key == Key(r.ip) && r.reply != NotRun && (r.expired || time <= r.now - window)
  }

  ghost predicate DroppedAt(t: Trace, j: nat, key: string, time: nat, window: int)
    requires j < |t.requests|
  {
    Drops(t.requests[j], key, time, window)
  }

  /** Request `j`, after the addition, dropped it before request `n`. */
  ghost predicate Dropped(t: Trace, a: Add, n: nat, key: string, window: int)
    requires n <= |t.requests|
  {
    exists j: nat :: a.number < j < n && DroppedAt(t, j, key, a.time, window)
  }

  /** A held addition has its own time as score. */
  lemma HeldScore(h: seq<Add>, counter: nat, entries: map<string, int>, i: nat)
    requires Made(h, counter) && Logs(h, entries) && i < |h|
    ensures h[i].member in entries ==> entries[h[i].member] == h[i].time
  {
    RecentHas(h, counter, -1, i);
  }

  lemma AfterHolds(c: Client, found: Log, counter: nat, now: nat, server: int, window: int, limit: int, lost: bool, i: nat)
    requires i < |c.history| && c.history[i].member != Member(now, counter)
    requires c.history[i].member in found.entries ==> found.entries[c.history[i].member] == c.history[i].time
    ensures var d := After(c, found, counter, now, server, window, limit, lost);
            && i < |d.history| && d.history[i] == c.history[i]
            && (c.history[i].member in d.log.entries <==> c.history[i].member in found.entries && c.history[i].time > now - window)
  {
    AfterIs(c, found, counter, now, server, window, limit, lost);
  }

  /** What one request leaves of an earlier addition. */
  lemma StepHolds(q: State, r: Request, window: int, limit: int, key: string, i: nat)
    requires GenuineAt(q, key) && i < |Of(q, key).history|
    ensures var c, d := Of(q, key), Of(Step(q, r, window, limit), key);
            && i < |d.history| && d.history[i] == c.history[i]
            && (c.history[i].member in d.log.entries
                <==> c.history[i].member in c.log.entries && !Drops(r, key, c.history[i].time, window))
  {
    var c := Of(q, key);
    HeldScore(c.history, q.counter, c.log.entries, i);
    NewMember(c.history, q.counter, r.now, q.counter, -1);
    RecentHas(c.history, q.counter, -1, i);
    if key == Key(r.ip) && r.reply != NotRun {
      AfterHolds(c, Found(q, r), q.counter, r.now, r.server, window, limit, r.reply == Lost, i);
    }
  }

  /** Main result, on every run and with any clocks: a client's log holds exactly those of
      its additions that no later request of the client pruned or found expired. */
  lemma {:induction false} LogHolds(t: Trace, n: nat, window: int, limit: int, key: string, i: nat)
    requires window > 0 && IsRun(t, window, limit) && n <= |t.requests| && i < |Of(t.states[n], key).history|
    ensures var c := Of(t.states[n], key);
            c.history[i].member in c.log.entries <==> !Dropped(t, c.history[i], n, key, window)
    decreases n
  {
    if n > 0 {
      var q, r := t.states[n - 1], t.requests[n - 1];
      RunGenuine(t, n - 1, window, limit, key);
      RunCounter(t, n - 1, window, limit);
      assert Link(t, n - 1, window, limit);
      if i < |Of(q, key).history| {
        MadeNumber(Of(q, key).history, n - 1, i);
        LogHolds(t, n - 1, window, limit, key, i);
        StepHolds(q, r, window, limit, key, i);
        OneMoreRequest(t, Of(q, key).history[i], n, key, window);
      } else {
        NewHeld(q, r, window, limit, key);
        assert Of(t.states[n], key).history[i].number == n - 1;
      }
    }
  }

  /** An addition that a request makes is in the log after it. */
  lemma NewHeld(q: State, r: Request, window: int, limit: int, key: string)
    requires |Of(q, key).history| < |Of(Step(q, r, window, limit), key).history|
    ensures var h, d := Of(q, key).history, Of(Step(q, r, window, limit), key);
            |d.history| == |h| + 1 && d.history[|h|] == Add(r.now, q.counter, Member(r.now, q.counter)) && d.history[|h|].member in d.log.entries
  { }

  lemma OneMoreRequest(t: Trace, a: Add, n: nat, key: string, window: int)
    requires 0 < n <= |t.requests| && a.number < n - 1
    ensures Dropped(t, a, n, key, window)
            <==> Dropped(t, a, n - 1, key, window) || Drops(t.requests[n - 1], key, a.time, window)
  {
    if Dropped(t, a, n - 1, key, window) {
      var j: nat :| a.number < j < n - 1 && DroppedAt(t, j, key, a.time, window);
      assert a.number < j < n && DroppedAt(t, j, key, a.time, window);
    }
    if Drops(t.requests[n - 1], key, a.time, window) {
      assert a.number < n - 1 < n && DroppedAt(t, n - 1, key, a.time, window);
    }
  }

  /** How many of these additions lie in the log's window. */
  ghost function Held(h: seq<Add>, entries: map<string, int>, start: int): (n: nat)
    ensures n <= |h|
  {
    if h == [] then 0
    else
      var a := h[|h| - 1];
      Held(h[..|h| - 1], entries, start) + if a.time > start && a.member in entries then 1 else 0
  }

  lemma {:induction false} HeldSize(h: seq<Add>, counter: nat, entries: map<string, int>, start: int)
    requires Made(h, counter)
    ensures |Recent(h, start).Keys * entries.Keys| == Held(h, entries, start)
    decreases |h|
  {
    if h != [] {
      var k := |h| - 1;
      HeldSize(h[..k], h[k].number, entries, start);
      NewMember(h[..k], h[k].number, h[k].time, h[k].number, start);
      var before := Recent(h[..k], start).Keys * entries.Keys;
      assert Recent(h, start).Keys * entries.Keys
          == if h[k].time > start && h[k].member in entries then before + {h[k].member} else before;
    }
  }

  lemma PrunedSize(h: seq<Add>, counter: nat, entries: map<string, int>, start: int)
    requires Made(h, counter) && Logs(h, entries)
    ensures |Pruned(entries, start)| == Held(h, entries, start)
  {
    RecentIsPruned(h, counter, start);
    HeldSize(h, counter, entries, start);
    assert Pruned(entries, start).Keys == Recent(h, start).Keys * entries.Keys;
    assert |Pruned(entries, start).Keys| == |Pruned(entries, start)|;
  }

  /** No addition of the caller after the start of its window was dropped by an earlier
      request, nor with the key just now. */
  ghost predicate NoneMissing(t: Trace, n: nat, window: int)
    requires n < |t.requests| < |t.states|
  {
    var h := Of(t.states[n], Key(t.requests[n].ip)).history;
    forall i | 0 <= i < |h| && h[i].time > t.requests[n].now - window ::
      !t.requests[n].expired && !Dropped(t, h[i], n, Key(t.requests[n].ip), window)
  }

  /** How many of these additions are in the caller's window and were dropped neither by an
      earlier request of the caller nor with the key just now. */
  ghost function Remaining(t: Trace, h: seq<Add>, n: nat, window: int): nat
    requires n < |t.requests|
  {
    if h == [] then 0
    else
      var r, a := t.requests[n], h[|h| - 1];
      Remaining(t, h[..|h| - 1], n, window)
      + if a.time > r.now - window && !r.expired && !Dropped(t, a, n, Key(r.ip), window) then 1 else 0
  }

  lemma {:induction false} HeldRemains(t: Trace, h: seq<Add>, n: nat, window: int, entries: map<string, int>)
    requires n < |t.requests|
    requires forall i | 0 <= i < |h| ::
               h[i].member in entries <==> !t.requests[n].expired && !Dropped(t, h[i], n, Key(t.requests[n].ip), window)
    ensures Held(h, entries, t.requests[n].now - window) == Remaining(t, h, n, window)
    decreases |h|
  {
    if h != [] {
      var k := |h| - 1;
      assert forall i | 0 <= i < k :: h[..k][i] == h[i];
      HeldRemains(t, h[..k], n, window, entries);
    }
  }

  /** What the script of request `n` finds, in terms of the requests before it. */
  lemma FoundIsUndropped(t: Trace, n: nat, window: int, limit: int)
    requires window > 0 && IsRun(t, window, limit) && n < |t.requests|
    ensures var q, r := t.states[n], t.requests[n]; var h := Of(q, Key(r.ip)).history;
            forall i | 0 <= i < |h| ::
              h[i].member in Found(q, r).entries <==> !r.expired && !Dropped(t, h[i], n, Key(r.ip), window)
  {
    var q, r := t.states[n], t.requests[n];
    forall i | 0 <= i < |Of(q, Key(r.ip)).history| { LogHolds(t, n, window, limit, Key(r.ip), i); }
  }

  lemma FindsAllIff(t: Trace, n: nat, window: int, limit: int)
    requires window > 0 && IsRun(t, window, limit) && n < |t.requests|
    ensures FindsAll(t.states[n], t.requests[n], window) <==> NoneMissing(t, n, window)
  {
    var q, r := t.states[n], t.requests[n];
    RunGenuine(t, n, window, limit, Key(r.ip));
    FoundIsUndropped(t, n, window, limit);
    WholeByIndex(Of(q, Key(r.ip)).history, q.counter, Found(q, r).entries, r.now - window);
  }

  lemma FoundSize(t: Trace, n: nat, window: int, limit: int)
    requires window > 0 && IsRun(t, window, limit) && n < |t.requests|
    ensures var q, r := t.states[n], t.requests[n];
            |Pruned(Found(q, r).entries, r.now - window)| == Remaining(t, Of(q, Key(r.ip)).history, n, window)
  {
    var q, r := t.states[n], t.requests[n];
    var h := Of(q, Key(r.ip)).history;
    RunGenuine(t, n, window, limit, Key(r.ip));
    FoundIsUndropped(t, n, window, limit);
    HeldRemains(t, h, n, window, Found(q, r).entries);
    PrunedSize(h, q.counter, Found(q, r).entries, r.now - window);
  }

  /** Main result, on every run, with any clocks and any expiry: a request is let through if
      and only if fewer than `limit` additions of its window remain undropped, so neither
      pruning nor expiry changes its verdict if and only if fewer than `limit` were ever
      made in the window or `limit` of them remain. */
  lemma VerdictExact(t: Trace, n: nat, window: int, limit: int)
    requires window > 0 && IsRun(t, window, limit) && n < |t.requests|
    ensures var q, r := t.states[n], t.requests[n]; var remaining := Remaining(t, Of(q, Key(r.ip)).history, n, window);
            && (Decided(q, r, window, limit).1 <==> remaining < limit)
            && ((Decided(q, r, window, limit).1 <==> Due(q, r, window, limit)) <==> Due(q, r, window, limit) || remaining >= limit)
    ensures NoneMissing(t, n, window) ==>
              (Decided(t.states[n], t.requests[n], window, limit).1 <==> Due(t.states[n], t.requests[n], window, limit))
  {
    RunGenuine(t, n, window, limit, Key(t.requests[n].ip));
    Verdict(t.states[n], t.requests[n], window, limit);
    FindsAllIff(t, n, window, limit);
    FoundSize(t, n, window, limit);
  }

  // ---- no window holds more than the limit ----

  lemma {:induction false} WithinLater(ts: seq<nat>, lo: int, hi: int, start: int)
    requires start <= lo
    ensures Within(ts, lo, hi) <= Later(ts, start)
    decreases |ts|
  {
    if ts != [] { WithinLater(ts[..|ts| - 1], lo, hi, start); }
  }

  /** The interval of one window's length after `x` holds at most `limit` acceptances and
      no more granted requests than acceptances. */
  ghost predicate Bounded(c: Client, x: int, window: int, limit: int) {
    Within(c.granted, x, x + window) <= Within(Times(c.history), x, x + window) <= limit
  }

  lemma AddCounts(c: Client, a: Add, x: int, window: int)
    ensures Within(Times(c.history + [a]), x, x + window)
            == Within(Times(c.history), x, x + window) + if x < a.time <= x + window then 1 else 0
    ensures Within(c.granted + [a.time], x, x + window)
            == Within(c.granted, x, x + window) + if x < a.time <= x + window then 1 else 0
  {
    assert Times(c.history + [a])[..|c.history|] == Times(c.history);
    assert (c.granted + [a.time])[..|c.granted|] == c.granted;
  }

  /** An acceptance keeps an interval bounded exactly if the interval does not contain it or
      was not full. */
  lemma AfterBounded(c: Client, found: Log, counter: nat, now: nat, server: int, x: int, window: int, limit: int, lost: bool)
    requires Bounded(c, x, window, limit)
    ensures Bounded(After(c, found, counter, now, server, window, limit, lost), x, window, limit)
            <==> (|Pruned(found.entries, now - window)| < limit && x < now <= x + window
                  ==> Within(Times(c.history), x, x + window) < limit)
  {
    AddCounts(c, Add(now, counter, Member(now, counter)), x, window);
  }

  /** If a whole log is not full, neither is any interval that contains the present. */
  lemma RoomLeft(h: seq<Add>, counter: nat, entries: map<string, int>, now: nat, window: int, limit: int, x: int)
    requires Made(h, counter) && Logs(h, entries) && Whole(h, entries, now - window) && |Pruned(entries, now - window)| < limit
    requires x < now <= x + window
    ensures Within(Times(h), x, x + window) < limit
  {
    KeptIsRecent(h, counter, entries, now - window);
    WithinLater(Times(h), x, x + window, now - window);
  }

  /** An acceptance would find room in the interval. */
  ghost predicate Roomy(q: State, r: Request, window: int, limit: int, x: int) {
    |Pruned(Found(q, r).entries, r.now - window)| < limit && x < r.now <= x + window ==>
      Within(Times(Of(q, Key(r.ip)).history), x, x + window) < limit
  }

  lemma FindsAllRoomy(q: State, r: Request, window: int, limit: int, x: int)
    requires GenuineAt(q, Key(r.ip)) && FindsAll(q, r, window)
    ensures Roomy(q, r, window, limit, x)
  {
    if |Pruned(Found(q, r).entries, r.now - window)| < limit && x < r.now <= x + window {
      RoomLeft(Of(q, Key(r.ip)).history, q.counter, Found(q, r).entries, r.now, window, limit, x);
    }
  }

  /** A request that runs keeps an interval bounded exactly if an acceptance finds room in it. */
  lemma StepBounded(q: State, r: Request, window: int, limit: int, key: string, x: int)
    requires Bounded(Of(q, key), x, window, limit)
    ensures Bounded(Of(Step(q, r, window, limit), key), x, window, limit)
            <==> (key == Key(r.ip) && r.reply != NotRun ==> Roomy(q, r, window, limit, x))
  {
    if key == Key(r.ip) && r.reply != NotRun {
      AfterBounded(Of(q, key), Found(q, r), q.counter, r.now, r.server, x, window, limit, r.reply == Lost);
    }
  }

  ghost predicate FoundAllAt(t: Trace, m: nat, window: int)
    requires m < |t.requests| < |t.states|
  {
    t.requests[m].reply != NotRun ==> NoneMissing(t, m, window)
  }

  /** Main result: on every run on which no script misses an addition of its window, with any
      clocks, any interval as long as the window holds at most `limit` accepted requests
      of a client, and at most as many granted ones. */
  lemma {:induction false} WindowHolds(t: Trace, n: nat, window: int, limit: int, key: string, x: int)
    requires window > 0 && limit >= 0 && IsRun(t, window, limit) && n <= |t.requests|
    requires forall m: nat {:trigger FoundAllAt(t, m, window)} :: m < n ==> FoundAllAt(t, m, window)
    ensures Bounded(Of(t.states[n], key), x, window, limit)
  {
    if n == 0 {
      assert Of(t.states[0], key) == NEW_CLIENT;
    } else {
      WindowHolds(t, n - 1, window, limit, key, x);
      assert Link(t, n - 1, window, limit) && FoundAllAt(t, n - 1, window);
      FindsAllIff(t, n - 1, window, limit);
      if t.requests[n - 1].reply != NotRun {
        RunGenuine(t, n - 1, window, limit, Key(t.requests[n - 1].ip));
        FindsAllRoomy(t.states[n - 1], t.requests[n - 1], window, limit, x);
      }
      StepBounded(t.states[n - 1], t.requests[n - 1], window, limit, key, x);
    }
  }

  /** If the client's request falls into the interval when that is full, `limit` additions of
      its own window remain undropped. */
  ghost predicate RoomyAt(t: Trace, m: nat, window: int, limit: int, key: string, x: int)
    requires m < |t.requests| < |t.states|
  {
    var r, h := t.requests[m], Of(t.states[m], key).history;
    key == Key(r.ip) && r.reply != NotRun && x < r.now <= x + window && Within(Times(h), x, x + window) >= limit ==>
      Remaining(t, h, m, window) >= limit
  }

  ghost predicate BoundedAt(t: Trace, m: nat, window: int, limit: int, key: string, x: int)
    requires m < |t.states|
  {
    Bounded(Of(t.states[m], key), x, window, limit)
  }

  /** Main result, on every run: an interval stays bounded up to request `n` if and only if
      every request of the client that came in it when it was full found `limit` additions
      of its own window that had not been dropped. */
  lemma {:induction false} WindowHoldsIff(t: Trace, n: nat, window: int, limit: int, key: string, x: int)
    requires window > 0 && limit >= 0 && IsRun(t, window, limit) && n <= |t.requests|
    ensures (forall m: nat {:trigger BoundedAt(t, m, window, limit, key, x)} :: m <= n ==> BoundedAt(t, m, window, limit, key, x))
            <==> (forall m: nat {:trigger RoomyAt(t, m, window, limit, key, x)} :: m < n ==> RoomyAt(t, m, window, limit, key, x))
  {
    BoundedStart(t, window, limit, key, x);
    if n > 0 {
      WindowHoldsIff(t, n - 1, window, limit, key, x);
      if BoundedAt(t, n - 1, window, limit, key, x) { BoundedNext(t, n - 1, window, limit, key, x); }
    }
  }

  lemma BoundedStart(t: Trace, window: int, limit: int, key: string, x: int)
    requires limit >= 0 && IsRun(t, window, limit)
    ensures BoundedAt(t, 0, window, limit, key, x)
  {
    assert Of(t.states[0], key) == NEW_CLIENT;
  }

  lemma BoundedNext(t: Trace, m: nat, window: int, limit: int, key: string, x: int)
    requires window > 0 && IsRun(t, window, limit) && m < |t.requests| && BoundedAt(t, m, window, limit, key, x)
    ensures BoundedAt(t, m + 1, window, limit, key, x) <==> RoomyAt(t, m, window, limit, key, x)
  {
    assert Link(t, m, window, limit);
    FoundSize(t, m, window, limit);
    StepBounded(t.states[m], t.requests[m], window, limit, key, x);
  }

  // ---- clocks that do not go back ----

  /** The clock does not go back, and a key expires only with no addition left in the window. */
  ghost predicate Cold(q: State, r: Request, window: int) {
    && q.now <= r.now
    && (r.expired && r.reply != NotRun ==> Later(Times(Of(q, Key(r.ip)).history), r.now - window) == 0)
  }

  ghost predicate ColdAt(t: Trace, m: nat, window: int)
    requires m < |t.requests| < |t.states|
  {
    Cold(t.states[m], t.requests[m], window)
  }

  ghost predicate ColdRun(t: Trace, n: nat, window: int)
    requires n <= |t.requests| < |t.states|
  {
    forall m: nat {:trigger ColdAt(t, m, window)} :: m < n ==> ColdAt(t, m, window)
  }

  lemma {:induction false} ColdRunAgrees(t: Trace, n: nat, window: int, limit: int)
    requires window > 0 && IsRun(t, window, limit) && n <= |t.requests| && ColdRun(t, n, window)
    ensures AllGenuine(t.states[n]) && AllWhole(t.states[n], window)
  {
    forall key: string ensures GenuineAt(t.states[n], key) { RunGenuine(t, n, window, limit, key); }
    if n == 0 {
      forall key: string ensures WholeAt(t.states[0], key, window) { assert Of(t.states[0], key) == NEW_CLIENT; }
    } else {
      ColdRunAgrees(t, n - 1, window, limit);
      assert Link(t, n - 1, window, limit) && ColdAt(t, n - 1, window);
      StepAgrees(t.states[n - 1], t.requests[n - 1], window, limit);
    }
  }

  lemma ColdFindsAll(t: Trace, n: nat, window: int, limit: int)
    requires window > 0 && IsRun(t, window, limit) && n < |t.requests| && ColdRun(t, n + 1, window)
    ensures FoundAllAt(t, n, window)
  {
    assert ColdRun(t, n, window) by { forall m: nat | m < n ensures ColdAt(t, m, window) { assert ColdAt(t, m, window); } }
    ColdRunAgrees(t, n, window, limit);
    var q, key := t.states[n], Key(t.requests[n].ip);
    assert ColdAt(t, n, window) && WholeAt(q, key, window) && GenuineAt(q, key);
    WholeLater(Of(q, key).history, q.counter, Of(q, key).log.entries, q.now - window, t.requests[n].now - window);
    if t.requests[n].expired { FindsAllExpired(t.states[n], t.requests[n], window); }
    FindsAllIff(t, n, window, limit);
  }

  /** Main result: on runs whose clock does not go back and whose keys expire only with no
      addition in the window, every verdict is that of the complete history and no window
      holds more than the limit. */
  lemma ColdRunHolds(t: Trace, n: nat, window: int, limit: int, key: string, x: int)
    requires window > 0 && limit >= 0 && IsRun(t, window, limit) && n < |t.requests| && ColdRun(t, n + 1, window)
    ensures var q, r := t.states[n], t.requests[n];
            r.reply != NotRun ==> (Decided(q, r, window, limit).1 <==> Due(q, r, window, limit))
    ensures Bounded(Of(t.states[n + 1], key), x, window, limit)
  {
    forall m: nat | m < n + 1 ensures FoundAllAt(t, m, window) {
      assert ColdRun(t, m + 1, window) by { forall k: nat | k < m + 1 ensures ColdAt(t, k, window) { assert ColdAt(t, k, window); } }
      ColdFindsAll(t, m, window, limit);
    }
    VerdictExact(t, n, window, limit);
    assert FoundAllAt(t, n, window);
    WindowHolds(t, n + 1, window, limit, key, x);
  }

  // ---- deadlines ----

  /** A key can expire only once its deadline is reached. */
  ghost predicate Legal(q: State, r: Request) {
    var d := Of(q, Key(r.ip)).log.deadline;
    r.expired && d.Some? ==> d.value <= r.server
  }

  /** The clock does not go back, and the server's does not gain on it. */
  ghost predicate Steady(q: State, r: Request) {
    q.now <= r.now && r.server - q.server <= r.now - q.now
  }

  /** The key lives at least until every addition is a window old. */
  ghost predicate Timely(c: Client, now: nat, server: int, window: int) {
    && (forall i | 0 <= i < |c.history| :: c.history[i].time <= now)
    && (c.log.deadline.None? ==> c.history == [])
    && (c.log.deadline.Some? ==>
         forall i | 0 <= i < |c.history| :: server - (c.log.deadline.value - window) <= now - c.history[i].time)
  }

  ghost predicate TimelyAt(q: State, key: string, window: int) {
    Timely(Of(q, key), q.now, q.server, window)
  }

  lemma StepTimely(q: State, r: Request, window: int, limit: int, key: string)
    requires window > 0 && limit > 0 && TimelyAt(q, key, window) && Steady(q, r)
    ensures TimelyAt(Step(q, r, window, limit), key, window)
  {
    if key == Key(r.ip) && r.reply != NotRun {
      var kept := Pruned(Found(q, r).entries, r.now - window);
      assert |kept| >= limit ==> kept != map[];
      assert r.expired ==> kept == map[];
    }
  }

  /** With deadlines kept and clocks steady, a key expires only when its window is empty. */
  lemma SteadyIsCold(q: State, r: Request, window: int)
    requires TimelyAt(q, Key(r.ip), window) && Legal(q, r) && Steady(q, r)
    ensures Cold(q, r, window)
  {
    var c := Of(q, Key(r.ip));
    if r.expired {
      forall i | 0 <= i < |c.history| ensures Times(c.history)[i] <= r.now - window { }
      LaterNone(Times(c.history), r.now - window);
    }
  }

  ghost predicate SteadyAt(t: Trace, m: nat)
    requires m < |t.requests| < |t.states|
  {
    Legal(t.states[m], t.requests[m]) && Steady(t.states[m], t.requests[m])
  }

  /** Corollary: Redis keeping its deadlines, with a clock that does not gain on the limiter's,
      is enough. */
  lemma {:induction false} SteadyRunIsCold(t: Trace, n: nat, window: int, limit: int, key: string)
    requires window > 0 && limit > 0 && IsRun(t, window, limit) && n <= |t.requests|
    requires forall m: nat {:trigger SteadyAt(t, m)} :: m < n ==> SteadyAt(t, m)
    ensures ColdRun(t, n, window) && TimelyAt(t.states[n], key, window)
    decreases n
  {
    if n == 0 {
      assert Of(t.states[0], key) == NEW_CLIENT;
    } else {
      SteadyRunIsCold(t, n - 1, window, limit, key);
      SteadyRunIsCold(t, n - 1, window, limit, Key(t.requests[n - 1].ip));
      assert Link(t, n - 1, window, limit) && SteadyAt(t, n - 1);
      StepTimely(t.states[n - 1], t.requests[n - 1], window, limit, key);
      SteadyIsCold(t.states[n - 1], t.requests[n - 1], window);
      forall m: nat | m < n ensures ColdAt(t, m, window) {
        if m < n - 1 { assert ColdAt(t, m, window); }
      }
    }
  }

  // ---- what the clocks and members must not do ----

  /** A request at that time, by either clock, that reaches the script. */
  function At(now: nat, server: int, expired: bool): Request {
    Request("1.2.3.4", now, server, expired, Delivered)
  }

  const CALLER := Key("1.2.3.4")
  const START := State(0, 0, 0, map[])

  /** What an accepted request does to its client. */
  lemma AcceptStep(q: State, r: Request, window: int, limit: int)
    requires r == At(r.now, r.server, r.expired) && |Pruned(Found(q, r).entries, r.now - window)| < limit
    ensures var q' := Step(q, r, window, limit); var m := Member(r.now, q.counter);
            && q'.counter == q.counter + 1
            && Times(Of(q', CALLER).history) == Times(Of(q, CALLER).history) + [r.now]
            && Of(q', CALLER).log == Log(Pruned(Found(q, r).entries, r.now - window)[m := r.now], Some(r.server + window))
  {
    var q' := Step(q, r, window, limit);
    var h, a := Of(q, CALLER).history, Add(r.now, q.counter, Member(r.now, q.counter));
    assert Of(q', CALLER).history == h + [a];
    assert Times(h + [a]) == Times(h) + [r.now];
  }

  lemma {:induction false} RunOf(requests: seq<Request>, window: int, limit: int) returns (t: Trace)
    ensures IsRun(t, window, limit) && t.requests == requests && t.states[0] == START
    decreases |requests|
  {
    if requests == [] {
      t := Trace([], [START]);
    } else {
      var m := |requests| - 1;
      var front := RunOf(requests[..m], window, limit);
      t := Trace(requests, front.states + [Step(front.states[m], requests[m], window, limit)]);
      forall n: nat | n < |requests| ensures Link(t, n, window, limit) {
        if n < m { assert Link(front, n, window, limit); }
      }
    }
  }

  /** A run in which Redis keeps its deadline but its clock runs ahead: with limit 1 and a
      window of 10, the requests at times 0 and 1 are both accepted. */
  lemma FastServerForgets() returns (t: Trace)
    ensures IsRun(t, 10, 1) && t.requests == [At(0, 0, false), At(1, 10, true)]
    ensures Legal(t.states[0], t.requests[0]) && Legal(t.states[1], t.requests[1])
    ensures !ColdAt(t, 1, 10) && !Bounded(Of(t.states[2], CALLER), -1, 10, 1)
  {
    var r0, r1 := At(0, 0, false), At(1, 10, true);
    t := RunOf([r0, r1], 10, 1);
    var q1, q2 := t.states[1], t.states[2];
    assert Link(t, 0, 10, 1) && Link(t, 1, 10, 1);
    assert Of(START, CALLER) == NEW_CLIENT;
    AcceptStep(START, r0, 10, 1);
    AcceptStep(q1, r1, 10, 1);
    assert Times(Of(q1, CALLER).history) == [0] && Times(Of(q2, CALLER).history) == [0, 1];
    assert [0, 1][..1] == [0] && [0][..0] == [];
    assert Later([0], -9) == 1 && Within([0], -1, 9) == 1 && Within([0, 1], -1, 9) == 2;
  }

  /** A run whose clock goes back: with limit 2 and a window of 10, entries pruned at time 20
      are missing at time 5, and the requests at times 0, 1 and 5 are all accepted. */
  lemma ClockBackOverflows() returns (t: Trace)
    ensures IsRun(t, 10, 2) && t.requests == [At(0, 0, false), At(1, 1, false), At(20, 20, false), At(5, 5, false)]
    ensures !FoundAllAt(t, 3, 10) && !Bounded(Of(t.states[4], CALLER), -5, 10, 2)
  {
    t := RunOf([At(0, 0, false), At(1, 1, false), At(20, 20, false), At(5, 5, false)], 10, 2);
    assert Link(t, 0, 10, 2) && Link(t, 1, 10, 2) && Link(t, 2, 10, 2) && Link(t, 3, 10, 2);
    BackPruned(t.states[1], t.states[2], t.states[3]);
    BackAccepted(t.states[3]);
    WindowMustMiss(t);
  }

  /** After the first three requests only the third is left in the log. */
  lemma BackPruned(q1: State, q2: State, q3: State)
    requires q1 == Step(START, At(0, 0, false), 10, 2) && q2 == Step(q1, At(1, 1, false), 10, 2)
    requires q3 == Step(q2, At(20, 20, false), 10, 2)
    ensures q3.counter == 3 && Times(Of(q3, CALLER).history) == [0, 1, 20]
    ensures Of(q3, CALLER).log.entries == map[Member(20, 2) := 20]
  {
    assert Of(START, CALLER) == NEW_CLIENT;
    AcceptStep(START, At(0, 0, false), 10, 2);
    assert Pruned(Of(q1, CALLER).log.entries, -9) == map[Member(0, 0) := 0];
    AcceptStep(q1, At(1, 1, false), 10, 2);
    assert Pruned(Of(q2, CALLER).log.entries, 10) == map[];
    AcceptStep(q2, At(20, 20, false), 10, 2);
  }

  /** So the fourth, back in the window of the first two, is accepted as the third in it. */
  lemma BackAccepted(q: State)
    requires Times(Of(q, CALLER).history) == [0, 1, 20] && Of(q, CALLER).log.entries == map[Member(20, 2) := 20]
    ensures !Bounded(Of(Step(q, At(5, 5, false), 10, 2), CALLER), -5, 10, 2)
  {
    assert Pruned(Of(q, CALLER).log.entries, -5) == map[Member(20, 2) := 20];
    AcceptStep(q, At(5, 5, false), 10, 2);
    assert [0, 1, 20] + [5] == [0, 1, 20, 5];
    WithinFour(0, 1, 20, 5, -5, 5);
  }

  lemma WindowMustMiss(t: Trace)
    requires IsRun(t, 10, 2) && |t.requests| == 4 && t.requests[3] == At(5, 5, false)
    requires Times(Of(t.states[3], CALLER).history) == [0, 1, 20] && Of(t.states[3], CALLER).log.entries.Keys == {Member(20, 2)}
    ensures !FoundAllAt(t, 3, 10)
  {
    FindsAllIff(t, 3, 10, 2);
    RunGenuine(t, 3, 10, 2, CALLER);
    var c := Of(t.states[3], CALLER);
    assert c.history[0].time == Times(c.history)[0];
    RecentHas(c.history, t.states[3].counter, -5, 0);
    RecentHas(c.history, t.states[3].counter, -5, 1);
    assert c.history[1].time == Times(c.history)[1];
    MadeMember(c.history, t.states[3].counter, 0);
    MadeMember(c.history, t.states[3].counter, 1);
    if c.history[0].member == Member(20, 2) { MemberInjective(0, c.history[0].number, 20, 2); }
  }

  lemma {:induction false} MadeMember(h: seq<Add>, counter: nat, i: nat)
    requires Made(h, counter) && i < |h|
    ensures h[i].member == Member(h[i].time, h[i].number)
    decreases |h|
  {
    var k := |h| - 1;
    if i < k { MadeMember(h[..k], h[k].number, i); }
  }

  lemma WithinFour(a: nat, b: nat, c: nat, d: nat, lo: int, hi: int)
    ensures Within([a, b, c, d], lo, hi) == (if lo < a <= hi then 1 else 0) + (if lo < b <= hi then 1 else 0)
                                            + (if lo < c <= hi then 1 else 0) + (if lo < d <= hi then 1 else 0)
  {
    assert [a, b, c, d][..3] == [a, b, c] && [a, b, c][..2] == [a, b] && [a, b][..1] == [a] && [a][..0] == [];
    assert Within([a], lo, hi) == Within([], lo, hi) + if lo < a <= hi then 1 else 0;
    assert Within([a, b], lo, hi) == Within([a], lo, hi) + if lo < b <= hi then 1 else 0;
    assert Within([a, b, c], lo, hi) == Within([a, b], lo, hi) + if lo < c <= hi then 1 else 0;
  }

  /** If two limiters share Redis and their numbers and times coincide, the second addition
      leaves the log as it was, so any number of such requests is accepted. */
  lemma SharedMemberUncounted(log: Log, now: int, server: int, window: int, limit: int, member: string)
    requires window > 0 && member in log.entries && log.entries[member] == now
    requires Pruned(log.entries, now - window) == log.entries
    ensures Script(log, now, server, window, limit, member).0.entries == log.entries
    ensures Script(log, now, server, window, limit, member).1 <==> |log.entries| < limit
  { }
}
