/** The sandbox's sliding window: a pruned queue of call times that decides as the whole log would. */
module RateLimit {
  import opened Wrappers
  import opened Text

  /** Instants in nanoseconds. */
  type Instant = int

  const SECOND: int := 1_000_000_000
  const MAX_CALLS: nat := 20

  datatype Verdict = Allowed | RateLimited | InvalidUrl | BlacklistedUrl

  /** A request, with the clock when it is checked and when its call is recorded. */
  datatype Request = Request(tool: string, url: Option<string>, now: Instant, later: Instant)

  predicate IsLimited(r: Request) {
    r.tool == "ping_zero_min"
  }

  // ----- Addresses -----

  function TrimPrefix(s: string, p: string): string
    requires p != ""
  {
    if p <= s then TrimPrefix(s[|p|..], p) else s
  }

  function Domain(url: string): string {
    var rest := TrimPrefix(TrimPrefix(url, "http://"), "https://");
    Split(Split(rest, '/')[0], ':')[0]
  }

  predicate EndsWith(s: string, p: string) {
    |p| <= |s| && s[|s| - |p|..] == p
  }

  function UrlVerdict(url: Option<string>, blacklist: seq<string>): (v: Verdict)
    ensures v != RateLimited
  {
    if url.None? then Allowed
    else if Domain(url.value) == "" then InvalidUrl
    else if exists b | b in blacklist :: Domain(url.value) == b || EndsWith(Domain(url.value), "." + b)
      then BlacklistedUrl
    else Allowed
  }

  lemma SplitFirst(s: string, c: char, host: string, rest: string)
    requires s == host + rest && c !in host && (rest == "" || rest[0] == c)
    ensures Split(s, c)[0] == host
  {
    if rest == "" {
      assert s == host;
      SplitSingle(host, c);
    } else {
      assert s == host + [c] + rest[1..];
      SplitCons(host, c, rest[1..]);
    }
  }

  /** The host in front of the first slash or colon. */
  lemma HostComesFirst(host: string, rest: string)
    requires '/' !in host && ':' !in host && (rest == "" || rest[0] == '/' || rest[0] == ':')
    ensures Split(Split(host + rest, '/')[0], ':')[0] == host
  {
    var i := IndexOf(rest, '/');
    assert rest == rest[..i] + rest[i..];
    assert host + rest == (host + rest[..i]) + rest[i..];
    SplitFirst(host + rest, '/', host + rest[..i], rest[i..]);
    SplitFirst(host + rest[..i], ':', host, rest[..i]);
  }

  predicate NamesNoScheme(s: string) {
    !("http://" <= s) && !("https://" <= s)
  }

  lemma SchemeComesOff(scheme: string, s: string)
    requires scheme == "" || scheme == "http://" || scheme == "https://" || scheme == "http://https://"
    requires NamesNoScheme(s)
    ensures TrimPrefix(TrimPrefix(scheme + s, "http://"), "https://") == s
  {
    hide TrimPrefix;
    NotTrimmed(s, "http://");
    NotTrimmed(s, "https://");
    if scheme == "" {
      assert "" + s == s;
    } else if scheme == "http://" {
      TrimmedOnce("http://", s);
    } else {
      var secure := "https://" + s;
      TrimmedOnce("https://", s);
      assert secure[4] == 's' && "http://"[4] == ':';
      NotTrimmed(secure, "http://");
      TrimmedOnce("http://", secure);
      assert "http://https://" + s == "http://" + secure;
    }
  }

  lemma NotTrimmed(s: string, p: string)
    requires p != "" && !(p <= s)
    ensures TrimPrefix(s, p) == s
  {
  }

  lemma TrimmedOnce(p: string, s: string)
    requires p != "" && !(p <= s)
    ensures TrimPrefix(p + s, p) == s
  {
    assert (p + s)[|p|..] == s;
  }

  /** The domain of an address is the text between its scheme and the first slash or colon. */
  lemma DomainIsHost(scheme: string, host: string, rest: string)
    requires scheme == "" || scheme == "http://" || scheme == "https://" || scheme == "http://https://"
    requires NamesNoScheme(host + rest)
    requires '/' !in host && ':' !in host && (rest == "" || rest[0] == '/' || rest[0] == ':')
    ensures Domain(scheme + (host + rest)) == host
  {
    SchemeComesOff(scheme, host + rest);
    HostComesFirst(host, rest);
  }

  /** An address is refused when it names no host, or when its host is on the list or below a domain on
      the list; a request without an address is not refused. */
  lemma UrlVerdictIff(url: string, blacklist: seq<string>)
    ensures UrlVerdict(None, blacklist) == Allowed
    ensures UrlVerdict(Some(url), blacklist) == InvalidUrl <==> Domain(url) == ""
    ensures UrlVerdict(Some(url), blacklist) == BlacklistedUrl <==>
              Domain(url) != "" && exists b :: b in blacklist && (Domain(url) == b || IsBelow(Domain(url), b))
  {
    hide Domain;
    forall b ensures EndsWith(Domain(url), "." + b) <==> IsBelow(Domain(url), b) {
      EndsWithIff(Domain(url), b);
    }
  }

  ghost predicate IsBelow(host: string, domain: string) {
    exists sub: string :: host == sub + "." + domain
  }

  lemma EndsWithIff(host: string, domain: string)
    ensures EndsWith(host, "." + domain) <==> IsBelow(host, domain)
  {
    if EndsWith(host, "." + domain) {
      var sub := host[..|host| - |domain| - 1];
      assert host == sub + ("." + domain) == sub + "." + domain;
    }
    forall sub: string | host == sub + "." + domain ensures EndsWith(host, "." + domain) {
      assert host == sub + ("." + domain);
    }
  }

  // ----- The window -----

  function Recent(log: seq<Instant>, since: Instant): seq<Instant> {
    if log == [] then []
    else
      var front, last := Recent(log[..|log| - 1], since), log[|log| - 1];
      if last >= since then front + [last] else front
  }

  function InWindow(log: seq<Instant>, from: Instant, to: Instant): seq<Instant> {
    if log == [] then []
    else
      var front, last := InWindow(log[..|log| - 1], from, to), log[|log| - 1];
      if from <= last <= to then front + [last] else front
  }

  function Prune(queue: seq<Instant>, since: Instant): seq<Instant> {
    if queue != [] && queue[0] < since then Prune(queue[1..], since) else queue
  }

  predicate Sorted(log: seq<Instant>) {
    forall i, j | 0 <= i <= j < |log| :: log[i] <= log[j]
  }

  // ----- One request -----

  /** The queue after a request, and the answer. */
  function Decide(queue: seq<Instant>, r: Request, blacklist: seq<string>): (seq<Instant>, Verdict) {
    if !IsLimited(r) then (queue, Allowed)
    else
      var pruned := Prune(queue, r.now - SECOND);
      if |pruned| >= MAX_CALLS then (pruned, RateLimited)
      else
        var v := UrlVerdict(r.url, blacklist);
        if v != Allowed then (pruned, v) else (pruned + [r.later], Allowed)
  }

  class SandboxManager {
    var callHistory: seq<Instant>
    const blacklistedDomains: seq<string>

    constructor (blacklist: seq<string>)
      ensures callHistory == [] && blacklistedDomains == blacklist
    {
      callHistory, blacklistedDomains := [], blacklist;
    }

    method CheckExecution(r: Request) returns (v: Verdict)
      modifies this
      ensures (callHistory, v) == Decide(old(callHistory), r, blacklistedDomains)
    {
      if r.tool != "ping_zero_min" {
        return Allowed;
      }
      var ok := CheckRateLimit(r.now);
      if !ok {
        return RateLimited;
      }
      v := UrlVerdict(r.url, blacklistedDomains);
      if v == Allowed {
        callHistory := callHistory + [r.later];
      }
    }

    method CheckRateLimit(now: Instant) returns (ok: bool)
      modifies this
      ensures callHistory == Prune(old(callHistory), now - SECOND)
      ensures ok <==> |callHistory| < MAX_CALLS
    {
      var oneSecondAgo := now - SECOND;
      while callHistory != []
        invariant Prune(callHistory, oneSecondAgo) == Prune(old(callHistory), oneSecondAgo)
        decreases |callHistory|
      {
        if callHistory[0] < oneSecondAgo {
          callHistory := callHistory[1..];
        } else {
          break;
        }
      }
      ok := |callHistory| < MAX_CALLS;
    }
  }

  // ----- Whole runs -----

  /** The queue beside the log of every admitted call, and the start of the second it covers. */
  datatype Run = Run(queue: seq<Instant>, log: seq<Instant>, since: Option<Instant>)

  const FRESH := Run([], [], None)

  function After(x: Run, r: Request, blacklist: seq<string>): Run {
    var (queue, v) := Decide(x.queue, r, blacklist);
    if !IsLimited(r) then x
    else Run(queue, if v == Allowed then x.log + [r.later] else x.log, Some(r.now - SECOND))
  }

  function RunOf(rs: seq<Request>, blacklist: seq<string>): Run {
    if rs == [] then FRESH else After(RunOf(rs[..|rs| - 1], blacklist), rs[|rs| - 1], blacklist)
  }

  /** The clock never goes back, within a request or between requests. */
  predicate ClockAdvances(rs: seq<Request>) {
    && (forall i | 0 <= i < |rs| :: rs[i].now <= rs[i].later)
    && (forall i, j | 0 <= i < j < |rs| :: rs[i].later <= rs[j].now)
  }

  /** The full log would answer: too many calls in the second before `now`. */
  predicate LogIsFull(log: seq<Instant>, now: Instant) {
    |Recent(log, now - 1_000_000_000)| >= 20
  }

  lemma {:induction false} RecentOfRecent(log: seq<Instant>, a: Instant, b: Instant)
    requires a <= b
    ensures Recent(Recent(log, a), b) == Recent(log, b)
  {
    if log != [] {
      var front, last := log[..|log| - 1], log[|log| - 1];
      RecentOfRecent(front, a, b);
      if last >= a {
        assert (Recent(front, a) + [last])[..|Recent(front, a)|] == Recent(front, a);
      }
    }
  }

  lemma {:induction false} RecentAll(log: seq<Instant>, since: Instant)
    requires forall t | t in log :: t >= since
    ensures Recent(log, since) == log
  {
    if log != [] {
      var front := log[..|log| - 1];
      assert log[|log| - 1] in log;
      forall t | t in front ensures t >= since { assert t in log; }
      RecentAll(front, since);
    }
  }

  lemma {:induction false} RecentDropsOld(first: Instant, log: seq<Instant>, since: Instant)
    requires first < since
    ensures Recent([first] + log, since) == Recent(log, since)
  {
    if log == [] {
      assert [first] + log == [first] && [first][..0] == [];
    } else {
      RecentDropsOld(first, log[..|log| - 1], since);
      assert ([first] + log)[..|log|] == [first] + log[..|log| - 1];
    }
  }

  /** On a sorted queue, popping old calls from the front is filtering. */
  lemma {:induction false} PruneIsRecent(queue: seq<Instant>, since: Instant)
    requires Sorted(queue)
    ensures Prune(queue, since) == Recent(queue, since)
  {
    if queue != [] && queue[0] < since {
      PruneIsRecent(queue[1..], since);
      assert queue == [queue[0]] + queue[1..];
      RecentDropsOld(queue[0], queue[1..], since);
    } else {
      RecentAll(queue, since);
    }
  }

  /** What holds between requests up to the clock reading `t`. */
  predicate Tracks(x: Run, t: Instant) {
    && Sorted(x.log)
    && (forall c | c in x.log :: c <= t)
    && match x.since
       case None => x.queue == [] && x.log == []
       case Some(since) => x.queue == Recent(x.log, since) && since <= t - SECOND
  }

  lemma {:induction false} RecentSorted(log: seq<Instant>, since: Instant)
    requires Sorted(log)
    ensures Sorted(Recent(log, since))
    ensures forall t | t in Recent(log, since) :: t in log && t >= since
  {
    if log != [] {
      var front := log[..|log| - 1];
      RecentSorted(front, since);
      var recent := Recent(front, since);
      forall i | 0 <= i < |recent| ensures recent[i] <= log[|log| - 1] {
        assert recent[i] in recent;
        assert recent[i] in front;
        var k :| 0 <= k < |front| && front[k] == recent[i];
      }
    }
  }

  /** On the queue kept so far, popping up to a later instant is filtering the whole log. */
  lemma PruneTracks(x: Run, t: Instant, since: Instant)
    requires Tracks(x, t) && t - SECOND <= since
    ensures Prune(x.queue, since) == Recent(x.log, since)
  {
    hide Prune;
    if x.since.Some? {
      RecentSorted(x.log, x.since.value);
      RecentOfRecent(x.log, x.since.value, since);
    }
    PruneIsRecent(x.queue, since);
  }

  lemma LogGrows(log: seq<Instant>, t: Instant, since: Instant)
    requires Sorted(log) && (forall c | c in log :: c <= t) && since <= t
    ensures Sorted(log + [t]) && (forall c | c in log + [t] :: c <= t)
    ensures Recent(log + [t], since) == Recent(log, since) + [t]
  {
    var all := log + [t];
    assert all[..|log|] == log;
    forall i | 0 <= i < |log| ensures all[i] <= t {
      assert log[i] in log;
    }
  }

  lemma StepTracks(x: Run, r: Request, blacklist: seq<string>, t: Instant)
    requires Tracks(x, t) && IsLimited(r) && t <= r.now <= r.later
    ensures Prune(x.queue, r.now - SECOND) == Recent(x.log, r.now - SECOND)
    ensures Tracks(After(x, r, blacklist), r.later)
  {
    hide UrlVerdict, Prune, Recent, Sorted;
    var since := r.now - SECOND;
    PruneTracks(x, t, since);
    LogStays(x.log, t, r.later);
    LogGrows(x.log, r.later, since);
  }

  lemma LogStays(log: seq<Instant>, t: Instant, later: Instant)
    requires (forall c | c in log :: c <= t) && t <= later
    ensures forall c | c in log :: c <= later
  {
  }

  lemma {:induction false} RunTracks(rs: seq<Request>, blacklist: seq<string>, t: Instant)
    requires ClockAdvances(rs) && forall r | r in rs :: r.later <= t
    ensures Tracks(RunOf(rs, blacklist), t)
  {
    if rs != [] {
      var front, last := rs[..|rs| - 1], rs[|rs| - 1];
      forall r | r in front ensures r.later <= last.now {
        var i :| 0 <= i < |front| && front[i] == r;
        assert rs[i].later <= rs[|rs| - 1].now;
      }
      RunTracks(front, blacklist, last.now);
      assert last in rs;
      if IsLimited(last) {
        StepTracks(RunOf(front, blacklist), last, blacklist, last.now);
      }
    }
  }

  /** Only calls of the one limited tool are held back, and calls of others leave no trace. */
  lemma OthersAreAllowed(queue: seq<Instant>, r: Request, blacklist: seq<string>)
    requires r.tool != "ping_zero_min"
    ensures Decide(queue, r, blacklist) == (queue, Allowed)
  {
  }

  /** Over every run with an advancing clock the queue is the log of admitted calls cut to the
      second before the last check, and each new request is refused for its rate exactly when the
      whole log holds twenty calls of the second before it. */
  lemma DecidesAsTheWholeLog(rs: seq<Request>, r: Request, blacklist: seq<string>)
    requires ClockAdvances(rs + [r]) && r.tool == "ping_zero_min"
    ensures var x := RunOf(rs, blacklist);
            && (x.since.Some? ==> x.queue == Recent(x.log, x.since.value))
            && (Decide(x.queue, r, blacklist).1 == RateLimited <==> LogIsFull(x.log, r.now))
            && (Decide(x.queue, r, blacklist).1 == Allowed <==>
                  !LogIsFull(x.log, r.now) && UrlVerdict(r.url, blacklist) == Allowed)
  {
    hide UrlVerdict, Recent, Prune;
    PrefixAdvances(rs, r);
    RunTracks(rs, blacklist, r.now);
    StepTracks(RunOf(rs, blacklist), r, blacklist, r.now);
  }

  lemma PrefixAdvances(rs: seq<Request>, r: Request)
    requires ClockAdvances(rs + [r])
    ensures ClockAdvances(rs) && r.now <= r.later
    ensures forall q | q in rs :: q.later <= r.now
  {
    var all := rs + [r];
    assert all[|rs|] == r;
    assert forall i | 0 <= i < |rs| :: all[i] == rs[i];
    forall q | q in rs ensures q.later <= r.now {
      var i :| 0 <= i < |rs| && rs[i] == q;
      assert all[i].later <= all[|rs|].now;
    }
  }

  lemma {:induction false} WindowWithinRecent(log: seq<Instant>, from: Instant, to: Instant, since: Instant)
    requires since <= from
    ensures |InWindow(log, from, to)| <= |Recent(log, since)|
  {
    if log != [] {
      WindowWithinRecent(log[..|log| - 1], from, to, since);
    }
  }

  /** No second, wherever it starts and with both its ends, ever holds more than twenty admitted
      calls. */
  lemma {:induction false} NoSecondHoldsMore(rs: seq<Request>, blacklist: seq<string>, from: Instant)
    requires ClockAdvances(rs)
    ensures |InWindow(RunOf(rs, blacklist).log, from, from + 1_000_000_000)| <= 20
  {
    if rs != [] {
      var front, last := rs[..|rs| - 1], rs[|rs| - 1];
      NoSecondHoldsMore(front, blacklist, from);
      hide UrlVerdict, Decide;
      var x := RunOf(front, blacklist);
      var log := After(x, last, blacklist).log;
      if log != x.log {
        assert rs == front + [last];
        DecidesAsTheWholeLog(front, last, blacklist);
        assert log[..|x.log|] == x.log;
        if from <= last.later <= from + SECOND {
          WindowWithinRecent(x.log, from, from + SECOND, last.now - SECOND);
        }
      }
    }
  }
}
