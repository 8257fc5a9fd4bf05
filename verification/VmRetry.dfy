/** Retrying an execute call: which errors are retried, how often, and how long the waits are. */
module VmRetry {
  import opened Decimals
  import opened VmProtocol
  import opened VmSafety
  import VmTheorems

  // --- Error texts ---

  predicate OccursAt(text: string, p: string, i: nat) {
    i + |p| <= |text| && text[i..i + |p|] == p
  }

  /** `text.contains(p)` */
  predicate Contains(text: string, p: string) {
    exists i: nat | 0 <= i <= |text| :: OccursAt(text, p, i)
  }

  /** What `to_string()` gives for the error of one attempt; no text for a success. */
  function ErrorText(o: Outcome, vmId: string): string {
    match o
    case Success(_) => ""
    case Failed(code, stderr) => "Command failed with exit code " + (Decimal(code) + (": " + stderr))
    case NotFound => "VM " + (vmId + " not found")
    case SendFailed => "Failed to send command to VM: " + CLOSED
    case TimedOut => "Command execution timed out"
    case Disconnected => GONE + " while waiting for command result"
  }

  const CLOSED: string := "sending on a closed channel"
  const GONE: string := "VM disconnected"

  /** The test of the retry loop, on the error's text. */
  predicate DisconnectClass(o: Outcome, vmId: string) {
    !o.Success? && (Contains(ErrorText(o, vmId), CLOSED) || Contains(ErrorText(o, vmId), GONE))
  }

  lemma Found(text: string, p: string, i: nat)
    requires OccursAt(text, p, i)
    ensures Contains(text, p)
  {
  }

  lemma CharsAt(text: string, p: string, i: nat)
    requires OccursAt(text, p, i)
    ensures forall k | i <= k < i + |p| :: text[k] == p[k - i]
  {
    forall k | i <= k < i + |p| ensures text[k] == p[k - i] { assert text[i..i + |p|][k - i] == p[k - i]; }
  }

  lemma OccursBehind(a: string, b: string, p: string, i: nat)
    ensures OccursAt(a + b, p, |a| + i) <==> OccursAt(b, p, i)
  {
    if i + |p| <= |b| {
      assert (a + b)[|a| + i..|a| + i + |p|] == b[i..i + |p|];
    }
  }

  /** No occurrence starts in a part that lacks the first character looked for. */
  lemma SkipFront(a: string, b: string, p: string)
    requires p != [] && p[0] !in a
    ensures Contains(a + b, p) <==> Contains(b, p)
  {
    var t := a + b;
    assert forall k | 0 <= k < |a| :: t[k] == a[k] && a[k] != p[0];
    if Contains(t, p) {
      var i: nat :| 0 <= i <= |t| && OccursAt(t, p, i);
      CharsAt(t, p, i);
      OccursBehind(a, b, p, i - |a|);
      Found(b, p, i - |a|);
    }
    if Contains(b, p) {
      var i: nat :| 0 <= i <= |b| && OccursAt(b, p, i);
      OccursBehind(a, b, p, i);
      Found(t, p, |a| + i);
    }
  }

  /** No occurrence reaches into a tail whose first two characters do not follow each other in `p`. */
  lemma SkipBack(a: string, b: string, p: string)
    requires |b| >= 2 && p != [] && p[0] !in b
    requires forall j | 0 <= j < |p| && p[j] == b[0] :: j + 1 < |p| && p[j + 1] != b[1]
    ensures Contains(a + b, p) <==> Contains(a, p)
  {
    var t := a + b;
    assert forall k | |a| <= k < |t| :: t[k] == b[k - |a|] && b[k - |a|] != p[0];
    assert t[|a|] == b[0] && t[|a| + 1] == b[1];
    if Contains(t, p) {
      var i: nat :| 0 <= i <= |t| && OccursAt(t, p, i);
      CharsAt(t, p, i);
      assert a[i..i + |p|] == t[i..i + |p|];
      Found(a, p, i);
    }
    if Contains(a, p) {
      var i: nat :| 0 <= i <= |a| && OccursAt(a, p, i);
      assert t[i..i + |p|] == a[i..i + |p|];
      Found(t, p, i);
    }
  }

  predicate HasPhrase(text: string) { Contains(text, CLOSED) || Contains(text, GONE) }

  lemma NoLetters(n: int)
    ensures 's' !in Decimal(n) && 'V' !in Decimal(n)
  {
  }

  lemma SkipToStderr(code: int, stderr: string, p: string)
    requires p == CLOSED || p == GONE
    ensures Contains("Command failed with exit code " + (Decimal(code) + (": " + stderr)), p) <==> Contains(stderr, p)
  {
    NoLetters(code);
    SkipFront(": ", stderr, p);
    SkipFront(Decimal(code), ": " + stderr, p);
    SkipFront("Command failed with exit code ", Decimal(code) + (": " + stderr), p);
  }

  lemma FailedRetried(code: int, stderr: string, vmId: string)
    ensures DisconnectClass(Failed(code, stderr), vmId) <==> HasPhrase(stderr)
  {
    SkipToStderr(code, stderr, CLOSED);
    SkipToStderr(code, stderr, GONE);
  }

  /** What comes behind the id of a missing VM takes no part in a match. */
  lemma NotFoundTail(vmId: string)
    ensures Contains(vmId + " not found", CLOSED) <==> Contains(vmId, CLOSED)
    ensures Contains(vmId + " not found", GONE) <==> Contains(vmId, GONE)
    ensures "disconnected" <= vmId + " not found" <==> "disconnected" <= vmId
  {
    SkipBack(vmId, " not found", CLOSED);
    SkipBack(vmId, " not found", GONE);
    var word, rest := "disconnected", vmId + " not found";
    assert rest[|vmId|] == ' ' && forall k | 0 <= k < |word| :: word[k] != ' ';
  }

  /** In the text for a missing VM the id follows "VM ", so an id that begins with "disconnected" matches too. */
  lemma NotFoundRetried(vmId: string)
    ensures DisconnectClass(NotFound, vmId) <==> HasPhrase(vmId) || "disconnected" <= vmId
  {
    NotFoundTail(vmId);
    SkipFront("VM ", vmId + " not found", CLOSED);
    GoneBehindVm(vmId + " not found");
  }

  lemma GoneBehindVm(rest: string)
    ensures Contains("VM " + rest, GONE) <==> Contains(rest, GONE) || "disconnected" <= rest
  {
    assert GONE == "VM " + "disconnected";
    SharedFront("VM ", "disconnected", rest);
  }

  /** An occurrence that does not begin with the text begins behind its first part. */
  lemma BehindFront(front: string, word: string, rest: string, i: nat)
    requires front != [] && forall k | 0 < k < |front| :: front[k] != front[0]
    requires 0 < i <= |front + rest| && OccursAt(front + rest, front + word, i)
    ensures Contains(rest, front + word)
  {
    var t, p, n := front + rest, front + word, |front|;
    CharsAt(t, p, i);
    assert p[0] == front[0] && forall k | 0 < k < n :: t[k] == front[k];
    OccursBehind(front, rest, p, i - n);
    Found(rest, p, i - n);
  }

  /** A text that begins with the first part of what is looked for. */
  lemma SharedFront(front: string, word: string, rest: string)
    requires front != [] && forall k | 0 < k < |front| :: front[k] != front[0]
    ensures Contains(front + rest, front + word) <==> Contains(rest, front + word) || word <= rest
  {
    var t, p := front + rest, front + word;
    OccursAtFront(front, word, rest);
    if Contains(t, p) && !OccursAt(t, p, 0) {
      var i: nat :| 0 <= i <= |t| && OccursAt(t, p, i);
      BehindFront(front, word, rest, i);
    }
    if word <= rest { Found(t, p, 0); }
    if Contains(rest, p) {
      var i: nat :| 0 <= i <= |rest| && OccursAt(rest, p, i);
      OccursBehind(front, rest, p, i);
      Found(t, p, |front| + i);
    }
  }

  lemma OccursAtFront(front: string, word: string, rest: string)
    ensures OccursAt(front + rest, front + word, 0) <==> word <= rest
  {
    var t, p := front + rest, front + word;
    if |p| <= |t| {
      assert t[0..|p|] == front + rest[..|word|];
      assert p[|front|..] == word && (front + rest[..|word|])[|front|..] == rest[..|word|];
    }
  }

  /** No occurrence where the first character is never followed by the second. */
  lemma Absent(text: string, p: string)
    requires |p| >= 2 && forall i | 0 <= i < |text| - 1 && text[i] == p[0] :: text[i + 1] != p[1]
    ensures !Contains(text, p)
  {
    forall i: nat | i <= |text| ensures !OccursAt(text, p, i) {
      assert i < |text| - 1 ==> text[i] != p[0] || text[i + 1] != p[1];
      if OccursAt(text, p, i) { CharsAt(text, p, i); }
    }
  }

  /**
    Exactly which outcomes are retried.  Besides the two intended ones there are three families of
    look-alikes: a failed command whose error output holds one of the phrases, and a missing VM whose
    id holds one or begins with "disconnected".
   */
  lemma RetriedExactly(o: Outcome, vmId: string)
    ensures DisconnectClass(o, vmId) <==>
      || o.SendFailed? || o.Disconnected?
      || (o.Failed? && HasPhrase(o.stderr))
      || (o.NotFound? && (HasPhrase(vmId) || "disconnected" <= vmId))
  {
    match o {
      case Success(_) =>
      case Failed(code, stderr) => FailedRetried(code, stderr, vmId);
      case NotFound => NotFoundRetried(vmId);
      case SendFailed =>
        var t := ErrorText(o, vmId);
        assert t[30..30 + |CLOSED|] == CLOSED;
        Found(t, CLOSED, 30);
      case TimedOut =>
        var t := ErrorText(o, vmId);
        assert 's' !in t && 'V' !in t;
        Absent(t, CLOSED);
        Absent(t, GONE);
      case Disconnected =>
        var t := ErrorText(o, vmId);
        assert t[0..|GONE|] == GONE;
        Found(t, GONE, 0);
    }
  }

  /** Look-alikes aside, an attempt is retried only when its incarnation is gone or the manager shuts down. */
  lemma {:induction false} RetriedOnlyWhenGone(image: bool, steps: seq<Step>, t: nat, vmId: string)
    requires Feasible(Init(image), steps) && IsExecute(Run(Init(image), steps), t)
    requires var c := Run(Init(image), steps).callers[t];
      && c.progress.Returned? && DisconnectClass(c.progress.outcome, vmId)
      && !(c.progress.outcome.Failed? && HasPhrase(c.progress.outcome.stderr))
      && !(c.progress.outcome.NotFound? && (HasPhrase(vmId) || "disconnected" <= vmId))
    ensures var s := Run(Init(image), steps); !LiveInc(s, s.callers[t].inc) || s.shutdown
  {
    var s := Run(Init(image), steps);
    RetriedExactly(s.callers[t].progress.outcome, vmId);
    VmTheorems.DisconnectMeansGone(image, steps, t);
  }

  // --- The loop ---

  const U64: nat := 0x1_0000_0000_0000_0000

  function Pow2(n: nat): (r: nat)
    ensures r >= 1
  {
    if n == 0 then 1 else 2 * Pow2(n - 1)
  }

  /** The wait after the attempt with index `k`, in milliseconds. */
  function Delay(k: nat): nat { 1000 * Pow2(k) }

  function Sum(s: seq<nat>): nat { if s == [] then 0 else Sum(s[..|s| - 1]) + s[|s| - 1] }

  /** The attempts before the one with index `n` all failed in a way that is retried. */
  ghost predicate AllRetried(attempt: nat -> Outcome, again: Outcome -> bool, n: nat) {
    forall k: nat | k < n :: again(attempt(k))
  }

  /**
    The loop of `execute_command_with_retry`: `attempt(k)` is the outcome of the attempt with index `k`,
    whatever the manager's state is by then, and `again` the test of its error.
   */
  method RetryLoop(attempt: nat -> Outcome, again: Outcome -> bool, maxRetries: nat)
    returns (verdict: Outcome, delays: seq<nat>)
    ensures |delays| <= maxRetries && verdict == attempt(|delays|) && AllRetried(attempt, again, |delays|)
    ensures again(verdict) ==> |delays| == maxRetries
    ensures forall k | 0 <= k < |delays| :: delays[k] == Delay(k)
    ensures Sum(delays) == 1000 * (Pow2(|delays|) - 1)
  {
    var retries := 0;
    delays := [];
    while true
      invariant retries == |delays| <= maxRetries && AllRetried(attempt, again, retries)
      invariant forall k | 0 <= k < retries :: delays[k] == Delay(k)
      invariant Sum(delays) == 1000 * (Pow2(retries) - 1)
      decreases maxRetries - retries
    {
      verdict := attempt(retries);
      if !again(verdict) || retries >= maxRetries {
        return;
      }
      ghost var before := delays;
      delays := delays + [Delay(retries)];
      assert delays[..|delays| - 1] == before;
      retries := retries + 1;
    }
  }

  /** At most `maxRetries` + 1 attempts are made; the last one's outcome is returned, all earlier ones were retried. */
  method ExecuteWithRetry(attempt: nat -> Outcome, vmId: string, maxRetries: nat)
    returns (verdict: Outcome, delays: seq<nat>)
    ensures |delays| <= maxRetries && verdict == attempt(|delays|)
    ensures forall k: nat | k < |delays| :: DisconnectClass(attempt(k), vmId)
    ensures DisconnectClass(verdict, vmId) ==> |delays| == maxRetries
    ensures forall k | 0 <= k < |delays| :: delays[k] == Delay(k)
    ensures Sum(delays) == 1000 * (Pow2(|delays|) - 1)
  {
    verdict, delays := RetryLoop(attempt, o => DisconnectClass(o, vmId), maxRetries);
  }

  lemma {:induction false} Pow2Monotone(m: nat, n: nat)
    requires m <= n
    ensures Pow2(m) <= Pow2(n)
  {
    if m < n { Pow2Monotone(m, n - 1); }
  }

  lemma Pow2At54And55()
    ensures Pow2(54) == 0x40_0000_0000_0000 && Pow2(55) == 0x80_0000_0000_0000
  {
    assert Pow2(8) == 0x100;
    assert Pow2(16) == 0x1_0000;
    assert Pow2(24) == 0x100_0000;
    assert Pow2(32) == 0x1_0000_0000;
    assert Pow2(40) == 0x100_0000_0000;
    assert Pow2(48) == 0x1_0000_0000_0000;
    assert Pow2(54) == 0x40_0000_0000_0000;
  }

  /** The delay computation stays within 64 bits for every retry exactly when at most 55 retries are allowed. */
  lemma DelaysFitExactly(maxRetries: nat)
    ensures (forall k | 0 <= k < maxRetries :: Delay(k) < U64) <==> maxRetries <= 55
  {
    Pow2At54And55();
    assert Delay(54) < U64 <= Delay(55);
    if maxRetries <= 55 {
      forall k | 0 <= k < maxRetries ensures Delay(k) < U64 { Pow2Monotone(k, 54); }
    }
  }
}
