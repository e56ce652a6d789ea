/**
 * The checking side of the Gemini key validator: `check_key` turns one
 * HTTP probe into a return value and a log line, `validate_keys_async`
 * keeps the keys whose check succeeded and signals completion last, and
 * `start_validation_thread` empties the message queue, extracts the keys
 * and either hands them to a worker or reports that none were found.
 * The network, the worker thread and the widgets are outside the model:
 * each key's probe outcome is an input, and the widgets are plain fields.
 */
module Validator {
  import opened Wrappers
  import Keys

  /** What `response.json()` gave for a non-200 reply: not a JSON object, or an object with or without `error.message`. */
  datatype ErrorBody = Unparsable | Parsed(message: Option<string>)

  /** How the request for one key ended. */
  datatype Probe = Responded(status: int, reason: string, body: ErrorBody) | TimedOut | Failed(error: string)

  const StatusOk: int := 200

  /** Python's `key[-4:]`. */
  function Last4(key: string): string {
    if |key| <= 4 then key else key[|key| - 4..]
  }

  function DigitChar(d: nat): char
    requires d < 10
  {
    "0123456789"[d]
  }

  /** Decimal digits of `n`, as `f"{n}"` prints them. */
  function NatToString(n: nat): (s: string)
    ensures |s| >= 1
    ensures forall i :: 0 <= i < |s| ==> '0' <= s[i] <= '9'
  {
    if n < 10 then [DigitChar(n)] else NatToString(n / 10) + [DigitChar(n % 10)]
  }

  function IntToString(n: int): string {
    if n < 0 then "-" + NatToString(-n) else NatToString(n)
  }

  /** `check_key`'s return value: the key on status 200, `None` on every other branch. */
  function CheckKey(key: string, probe: Probe): (r: Option<string>)
    ensures r.Some? <==> probe.Responded? && probe.status == StatusOk
    ensures r.Some? ==> r.value == key
  {
    match probe
    case Responded(status, _, _) => if status == StatusOk then Some(key) else None
    case _ => None
  }

  /** The eight-character tag a log line opens with. */
  function Marker(ok: bool): (m: string)
    ensures |m| == 8
  {
    if ok then "[  OK  ]" else "[ FAIL ]"
  }

  /** What a log line says after the key's last four characters. */
  function Outcome(probe: Probe): string {
    match probe
    case Responded(status, reason, body) =>
      if status == StatusOk then " is VALID."
      else
        var why := match body
          case Parsed(message) => message.GetOr("Unknown error")
          case Unparsable => reason;
        " is INVALID. Status: " + IntToString(status) + ", Reason: " + why
    case TimedOut => " timed out."
    case Failed(error) => " failed with an unexpected error: " + error
  }

  /** A log line after its tag: the key's last four characters and the outcome. */
  function Detail(key: string, probe: Probe): string {
    " Key ..." + Last4(key) + Outcome(probe)
  }

  /** The line `check_key` puts on the queue. */
  function LogLine(key: string, probe: Probe): string {
    Marker(probe.Responded? && probe.status == StatusOk) + Detail(key, probe)
  }

  /** A log line shows no more of a key than its last four characters: keys that end alike log alike. */
  lemma LogLineShowsLast4(key1: string, key2: string, probe: Probe)
    requires Last4(key1) == Last4(key2)
    ensures LogLine(key1, probe) == LogLine(key2, probe)
  {
  }

  /** A line opens with `[  OK  ]` exactly when the check returned the key. */
  lemma LogLineMarksResult(key: string, probe: Probe)
    ensures LogLine(key, probe)[..8] == "[  OK  ]" <==> CheckKey(key, probe).Some?
  {
    var m := Marker(probe.Responded? && probe.status == StatusOk);
    assert LogLine(key, probe)[..8] == m;
    assert Marker(false)[2] != Marker(true)[2];
  }

  /** `asyncio.gather`'s list: one result per key, in the order of the keys. */
  function Results(keys: seq<string>, probes: seq<Probe>): (rs: seq<Option<string>>)
    requires |probes| == |keys|
    ensures |rs| == |keys|
  {
    if keys == [] then []
    else
      var n := |keys| - 1;
      Results(keys[..n], probes[..n]) + [CheckKey(keys[n], probes[n])]
  }

  /** Entry `i` of the `gather` list is the check of key `i`. */
  lemma {:induction false} ResultsAt(keys: seq<string>, probes: seq<Probe>)
    requires |probes| == |keys|
    ensures forall i :: 0 <= i < |keys| ==> Results(keys, probes)[i] == CheckKey(keys[i], probes[i])
  {
    if keys != [] {
      var n := |keys| - 1;
      ResultsAt(keys[..n], probes[..n]);
      forall i | 0 <= i < n ensures Results(keys, probes)[i] == CheckKey(keys[i], probes[i]) {
        assert Results(keys, probes)[i] == Results(keys[..n], probes[..n])[i];
      }
    }
  }

  /** The results `if result:` keeps: present and not the empty string, in order. */
  function Kept(results: seq<Option<string>>): (kept: seq<string>)
    ensures |kept| <= |results|
  {
    if results == [] then []
    else
      var last := results[|results| - 1];
      Kept(results[..|results| - 1]) + (if last.Some? && last.value != "" then [last.value] else [])
  }

  /** The loop of `validate_keys_async` that collects the truthy results. */
  method CollectValid(results: seq<Option<string>>) returns (valid: seq<string>)
    ensures valid == Kept(results)
  {
    valid := [];
    var i := 0;
    while i < |results|
      invariant 0 <= i <= |results|
      invariant valid == Kept(results[..i])
    {
      var result := results[i];
      if result.Some? && result.value != "" {
        valid := valid + [result.value];
      }
      assert results[..i + 1][..i] == results[..i];
      i := i + 1;
    }
    assert results[..i] == results;
  }

  /** `validate_keys_async` keeps a key when its check returned it and it is not empty. */
  predicate Accepted(key: string, probe: Probe) {
    key != "" && probe.Responded? && probe.status == StatusOk
  }

  /** Checking one more key keeps it after the keys kept so far, when it is accepted. */
  lemma KeptStep(keys: seq<string>, probes: seq<Probe>)
    requires |probes| == |keys| > 0
    ensures var n := |keys| - 1;
            Kept(Results(keys, probes)) ==
              Kept(Results(keys[..n], probes[..n])) + (if Accepted(keys[n], probes[n]) then [keys[n]] else [])
  {
    var n := |keys| - 1;
    var rs := Results(keys, probes);
    assert rs[..n] == Results(keys[..n], probes[..n]);
    assert rs[n] == CheckKey(keys[n], probes[n]);
  }

  /** Every kept key is an accepted key. */
  lemma {:induction false} KeptOnlyAccepted(keys: seq<string>, probes: seq<Probe>)
    requires |probes| == |keys|
    ensures forall k :: k in Kept(Results(keys, probes)) ==> exists i :: 0 <= i < |keys| && keys[i] == k && Accepted(k, probes[i])
    decreases |keys|
  {
    if keys != [] {
      var n := |keys| - 1;
      var front, frontProbes := keys[..n], probes[..n];
      KeptOnlyAccepted(front, frontProbes);
      KeptStep(keys, probes);
      var prev := Kept(Results(front, frontProbes));
      forall k | k in Kept(Results(keys, probes)) ensures exists i :: 0 <= i < |keys| && keys[i] == k && Accepted(k, probes[i]) {
        if k in prev {
          var i :| 0 <= i < n && front[i] == k && Accepted(k, frontProbes[i]);
          assert keys[i] == k && probes[i] == frontProbes[i];
        } else {
          assert keys[n] == k && Accepted(k, probes[n]);
        }
      }
    }
  }

  /** Every accepted key is kept. */
  lemma {:induction false} AcceptedKept(keys: seq<string>, probes: seq<Probe>)
    requires |probes| == |keys|
    ensures forall i :: 0 <= i < |keys| && Accepted(keys[i], probes[i]) ==> keys[i] in Kept(Results(keys, probes))
    decreases |keys|
  {
    if keys != [] {
      var n := |keys| - 1;
      var front, frontProbes := keys[..n], probes[..n];
      AcceptedKept(front, frontProbes);
      KeptStep(keys, probes);
      var prev := Kept(Results(front, frontProbes));
      var kept := Kept(Results(keys, probes));
      forall i | 0 <= i < |keys| && Accepted(keys[i], probes[i]) ensures keys[i] in kept {
        if i < n {
          assert front[i] == keys[i] && frontProbes[i] == probes[i];
          var j :| 0 <= j < |prev| && prev[j] == keys[i];
          assert kept[j] == prev[j];
        } else {
          assert kept == prev + [keys[n]];
          assert kept[|prev|] == keys[n];
        }
      }
    }
  }

  /** A key is kept exactly when it is non-empty and its probe answered 200. */
  lemma KeptChecks(keys: seq<string>, probes: seq<Probe>)
    requires |probes| == |keys|
    ensures forall k :: k in Kept(Results(keys, probes)) <==> exists i :: 0 <= i < |keys| && keys[i] == k && Accepted(k, probes[i])
  {
    KeptOnlyAccepted(keys, probes);
    AcceptedKept(keys, probes);
  }

  /** Every kept key is one of the checked keys. */
  lemma KeptSubset(keys: seq<string>, probes: seq<Probe>)
    requires |probes| == |keys|
    ensures forall k :: k in Kept(Results(keys, probes)) ==> k in keys
  {
    KeptOnlyAccepted(keys, probes);
  }

  /** Keys checked in ascending order are kept in ascending order. */
  lemma {:induction false} KeptAscending(keys: seq<string>, probes: seq<Probe>)
    requires |probes| == |keys|
    requires Keys.Ascending(keys)
    ensures Keys.Ascending(Kept(Results(keys, probes)))
    decreases |keys|
  {
    if keys != [] {
      var n := |keys| - 1;
      var front, frontProbes := keys[..n], probes[..n];
      Keys.AscendingPrefix(keys, n);
      KeptAscending(front, frontProbes);
      KeptSubset(front, frontProbes);
      KeptStep(keys, probes);
      var prev := Kept(Results(front, frontProbes));
      if Accepted(keys[n], probes[n]) {
        forall y | y in prev ensures Keys.Less(y, keys[n]) {
          var f :| 0 <= f < n && front[f] == y;
          assert keys[f] == y;
        }
        Keys.AscendingSnoc(prev, keys[n]);
      }
    }
  }


  /** What the worker thread puts on the queue: a log line, or the final `("DONE", valid_keys)` tuple. */
  datatype QueueItem = Line(text: string) | Done(valid: seq<string>)

  /** A `queue.Queue` used from one thread at a time. */
  class MessageQueue {
    var items: seq<QueueItem>

    constructor ()
      ensures items == []
    {
      items := [];
    }

    method Put(item: QueueItem)
      modifies this
      ensures items == old(items) + [item]
    {
      items := items + [item];
    }

    method IsEmpty() returns (empty: bool)
      ensures empty <==> items == []
    {
      empty := items == [];
    }

    /** `get_nowait`: the oldest item, or `None` where Python raises `queue.Empty`. */
    method GetNowait() returns (item: Option<QueueItem>)
      modifies this
      ensures old(items) == [] ==> item == None && items == []
      ensures old(items) != [] ==> item == Some(old(items)[0]) && items == old(items)[1..]
    {
      if items == [] {
        item := None;
      } else {
        item := Some(items[0]);
        items := items[1..];
      }
    }
  }

  /** The log lines of the checks, in key order. */
  function Lines(keys: seq<string>, probes: seq<Probe>): (ls: seq<QueueItem>)
    requires |probes| == |keys|
    ensures |ls| == |keys|
    ensures forall i :: 0 <= i < |ls| ==> ls[i].Line?
  {
    if keys == [] then []
    else
      var n := |keys| - 1;
      Lines(keys[..n], probes[..n]) + [Line(LogLine(keys[n], probes[n]))]
  }

  /** Line `i` is the log line of key `i`. */
  lemma {:induction false} LinesAt(keys: seq<string>, probes: seq<Probe>)
    requires |probes| == |keys|
    ensures forall i :: 0 <= i < |keys| ==> Lines(keys, probes)[i] == Line(LogLine(keys[i], probes[i]))
  {
    if keys != [] {
      var n := |keys| - 1;
      var front, last := Lines(keys[..n], probes[..n]), Line(LogLine(keys[n], probes[n]));
      assert Lines(keys, probes) == front + [last];
      LinesAt(keys[..n], probes[..n]);
      forall i | 0 <= i < |keys| ensures Lines(keys, probes)[i] == Line(LogLine(keys[i], probes[i])) {
        if i < n {
          assert (front + [last])[i] == front[i];
          assert keys[..n][i] == keys[i] && probes[..n][i] == probes[i];
        }
      }
    }
  }

  /** `check_key`: puts the key's log line on the queue and returns what the check found. */
  method CheckKeyInto(key: string, probe: Probe, queue: MessageQueue) returns (result: Option<string>)
    modifies queue
    ensures result == CheckKey(key, probe)
    ensures queue.items == old(queue.items) + [Line(LogLine(key, probe))]
  {
    queue.Put(Line(LogLine(key, probe)));
    result := CheckKey(key, probe);
  }

  lemma ResultsSnoc(keys: seq<string>, probes: seq<Probe>, i: nat)
    requires |probes| == |keys| && i < |keys|
    ensures Results(keys[..i + 1], probes[..i + 1]) == Results(keys[..i], probes[..i]) + [CheckKey(keys[i], probes[i])]
  {
    assert keys[..i + 1][..i] == keys[..i] && probes[..i + 1][..i] == probes[..i];
  }

  lemma LinesSnoc(keys: seq<string>, probes: seq<Probe>, i: nat)
    requires |probes| == |keys| && i < |keys|
    ensures Lines(keys[..i + 1], probes[..i + 1]) == Lines(keys[..i], probes[..i]) + [Line(LogLine(keys[i], probes[i]))]
  {
    assert keys[..i + 1][..i] == keys[..i] && probes[..i + 1][..i] == probes[..i];
  }

  /** One more checked key adds its line after the lines so far. */
  lemma LinesStep(start: seq<QueueItem>, keys: seq<string>, probes: seq<Probe>, i: nat, before: seq<QueueItem>, after: seq<QueueItem>)
    requires |probes| == |keys| && i < |keys|
    requires before == start + Lines(keys[..i], probes[..i])
    requires after == before + [Line(LogLine(keys[i], probes[i]))]
    ensures after == start + Lines(keys[..i + 1], probes[..i + 1])
  {
    LinesSnoc(keys, probes, i);
  }

  /** The `gather` over `check_key`: every key's line, in key order, and every key's result. */
  method CheckAll(keys: seq<string>, probes: seq<Probe>, queue: MessageQueue) returns (results: seq<Option<string>>)
    requires |probes| == |keys|
    modifies queue
    ensures results == Results(keys, probes)
    ensures queue.items == old(queue.items) + Lines(keys, probes)
  {
    results := [];
    var i := 0;
    while i < |keys|
      invariant 0 <= i <= |keys|
      invariant results == Results(keys[..i], probes[..i])
      invariant queue.items == old(queue.items) + Lines(keys[..i], probes[..i])
    {
      ghost var before := queue.items;
      var result := CheckKeyInto(keys[i], probes[i], queue);
      results := results + [result];
      ResultsSnoc(keys, probes, i);
      LinesStep(old(queue.items), keys, probes, i, before, queue.items);
      i := i + 1;
    }
    assert keys[..i] == keys && probes[..i] == probes;
  }

  /**
   * `validate_keys_async`: checks every key, which puts one line per key,
   * then puts the valid keys as the single completion message, last.
   */
  method ValidateKeysAsync(keys: seq<string>, probes: seq<Probe>, queue: MessageQueue)
    requires |probes| == |keys|
    modifies queue
    ensures queue.items == old(queue.items) + Lines(keys, probes) + [Done(Kept(Results(keys, probes)))]
  {
    var results := CheckAll(keys, probes, queue);
    var valid := CollectValid(results);
    queue.Put(Done(valid));
  }


  /** After a run of log lines, the completion message is the first and only one of its kind. */
  lemma DoneAfterLines(lines: seq<QueueItem>, valid: seq<string>)
    requires forall i :: 0 <= i < |lines| ==> lines[i].Line?
    ensures FirstDone(lines + [Done(valid)]) == Some(|lines|)
  {
    var items := lines + [Done(valid)];
    assert items[|lines|].Done?;
  }

  /** The completion message is the last item and the only one. */
  lemma DoneIsLastAndOnly(keys: seq<string>, probes: seq<Probe>, before: seq<QueueItem>)
    requires |probes| == |keys|
    requires forall i :: 0 <= i < |before| ==> before[i].Line?
    ensures var items := before + Lines(keys, probes) + [Done(Kept(Results(keys, probes)))];
            FirstDone(items) == Some(|items| - 1)
  {
    var lines := before + Lines(keys, probes);
    forall i | 0 <= i < |lines| ensures lines[i].Line? {
      if i >= |before| {
        assert lines[i] == Lines(keys, probes)[i - |before|];
      }
    }
    DoneAfterLines(lines, Kept(Results(keys, probes)));
  }


  /** Where the first completion message sits in a queue, if there is one. */
  function FirstDone(items: seq<QueueItem>): (d: Option<nat>)
    ensures d.Some? ==> d.value < |items| && items[d.value].Done? && forall i :: 0 <= i < d.value ==> items[i].Line?
    ensures d.None? ==> forall i :: 0 <= i < |items| ==> items[i].Line?
  {
    if items == [] then None
    else if items[0].Done? then Some(0)
    else match FirstDone(items[1..])
      case None => None
      case Some(d) => Some(d + 1)
  }

  /** One more log line adds its text after the texts so far. */
  lemma TextsSnoc(items: seq<QueueItem>, n: nat)
    requires n < |items| && forall i :: 0 <= i <= n ==> items[i].Line?
    ensures Texts(items[..n + 1]) == Texts(items[..n]) + [items[n].text]
  {
  }

  /** The first completion message sits where the log lines end. */
  lemma FirstDoneAt(items: seq<QueueItem>, d: nat)
    requires d < |items| && items[d].Done?
    requires forall i :: 0 <= i < d ==> items[i].Line?
    ensures FirstDone(items) == Some(d)
  {
  }

  /** The text of log lines. */
  function Texts(items: seq<QueueItem>): (ts: seq<string>)
    requires forall i :: 0 <= i < |items| ==> items[i].Line?
    ensures |ts| == |items| && forall i :: 0 <= i < |items| ==> ts[i] == items[i].text
  {
    seq(|items|, i requires 0 <= i < |items| => items[i].text)
  }

  const ValidKeysHeader: string := "\n--- VALID KEYS ---"

  /** What the output shows of the valid keys: nothing when there are none, else a header and the keys. */
  function Shown(valid: seq<string>): (ts: seq<string>)
    ensures valid == [] <==> ts == []
    ensures valid != [] ==> ts[0] == ValidKeysHeader && ts[1..] == valid
  {
    if valid == [] then [] else [ValidKeysHeader] + valid
  }

  /** `sub` occurs in `s` at position `i`. */
  predicate OccursAt(s: string, sub: string, i: int) {
    0 <= i && i + |sub| <= |s| && s[i..i + |sub|] == sub
  }

  /** Python's `sub in s` on strings. */
  predicate Mentions(s: string, sub: string) {
    exists i :: 0 <= i <= |s| && OccursAt(s, sub, i)
  }

  const CompletionMarker: string := "Validation complete"
  const UnexpectedEndSummary: string := "Validation finished or terminated unexpectedly."

  function CompletionSummary(validCount: nat, total: nat): string {
    CompletionMarker + ". Found " + NatToString(validCount) + " valid key(s) out of " + NatToString(total) + " unique keys."
  }

  /** The total the completion summary shows as written: every match, repeats included. */
  function TotalAsWritten(input: string): (total: nat)
    ensures total == |Keys.MatchesFrom(input, 0)|
  {
    |Keys.FindKeys(input)|
  }

  /** A list without repeats has as many elements as entries. */
  lemma {:induction false} DistinctCount(r: seq<string>)
    requires forall i, j :: 0 <= i < j < |r| ==> r[i] != r[j]
    ensures |Keys.Elements(r)| == |r|
  {
    if r != [] {
      var front := r[..|r| - 1];
      DistinctCount(front);
      assert r == front + [r[|r| - 1]];
      assert r[|r| - 1] !in Keys.Elements(front);
      assert Keys.Elements(r) == Keys.Elements(front) + {r[|r| - 1]};
    }
  }

  /** The total the completion summary means: the number of distinct keys in the input. */
  function TotalKeys(input: string): nat {
    |Keys.UniqueKeys(input)|
  }

  /** That total counts each distinct key found in the input once. */
  lemma TotalKeysCountsDistinct(input: string)
    ensures TotalKeys(input) == |Keys.Elements(Keys.FindKeys(input))|
  {
    var keys := Keys.UniqueKeys(input);
    Keys.AscendingHasNoDuplicates(keys);
    DistinctCount(keys);
    assert Keys.Elements(keys) == Keys.Elements(Keys.FindKeys(input));
  }

  /** No entry of `r` repeats another. */
  predicate Distinct(r: seq<string>) {
    forall i, j :: 0 <= i < j < |r| ==> r[i] != r[j]
  }

  /** A list has at most as many elements as entries, and as many only when nothing repeats. */
  lemma {:induction false} ElementsAtMost(r: seq<string>)
    ensures |Keys.Elements(r)| <= |r|
    ensures |Keys.Elements(r)| == |r| ==> Distinct(r)
  {
    if r != [] {
      var front, x := r[..|r| - 1], r[|r| - 1];
      ElementsAtMost(front);
      assert r == front + [x];
      assert Keys.Elements(r) == Keys.Elements(front) + {x};
      if x in Keys.Elements(front) {
        assert Keys.Elements(r) == Keys.Elements(front);
      } else if |Keys.Elements(r)| == |r| {
        forall i, j | 0 <= i < j < |r| ensures r[i] != r[j] {
          assert r[i] == front[i];
          if j == |r| - 1 {
            assert front[i] in Keys.Elements(front);
          } else {
            assert r[j] == front[j];
          }
        }
      }
    }
  }

  /**
   * The total as written never undercounts the distinct keys, and the two
   * agree exactly when no key is pasted twice.
   */
  lemma TotalAsWrittenVersusDistinct(input: string)
    ensures TotalKeys(input) <= TotalAsWritten(input)
    ensures TotalKeys(input) == TotalAsWritten(input) <==> Distinct(Keys.FindKeys(input))
  {
    var r := Keys.FindKeys(input);
    TotalKeysCountsDistinct(input);
    ElementsAtMost(r);
    if Distinct(r) {
      DistinctCount(r);
    }
  }

  /** A key pasted twice. */
  const SampleKey: string := Keys.KeyPrefix + seq(Keys.KeyBodyLength, _ => 'A')

  lemma SampleIsKey()
    ensures Keys.IsKey(SampleKey)
  {
    var body: string := seq(Keys.KeyBodyLength, _ => 'A');
    assert SampleKey[0..4] == Keys.KeyPrefix;
    forall j | 4 <= j < Keys.KeyLength ensures Keys.IsKeyChar(SampleKey[j]) {
      assert SampleKey[j] == body[j - 4];
    }
  }

  /** A key inside a text matches where it sits. */
  lemma KeyMatchesInPlace(before: string, key: string, after: string)
    requires Keys.IsKey(key)
    ensures Keys.KeyAt(before + key + after, |before|)
    ensures (before + key + after)[|before|..|before| + Keys.KeyLength] == key
  {
    var text := before + key + after;
    assert text[|before|..|before| + Keys.KeyLength] == key;
    assert text[|before|..|before| + 4] == key[0..4];
    forall j | |before| + 4 <= j < |before| + Keys.KeyLength ensures Keys.IsKeyChar(text[j]) {
      assert text[j] == key[j - |before|];
    }
  }

  /** A key pasted twice is counted twice by the completion summary as written, once by the distinct count. */
  lemma TotalCountsRepeats()
    ensures TotalAsWritten(SampleKey + SampleKey) == 2 && TotalKeys(SampleKey + SampleKey) == 1
  {
    var text := SampleKey + SampleKey;
    SampleIsKey();
    KeyMatchesInPlace([], SampleKey, SampleKey);
    KeyMatchesInPlace(SampleKey, SampleKey, []);
    assert [] + SampleKey + SampleKey == text && SampleKey + SampleKey + [] == text;
    assert Keys.MatchesFrom(text, 39) == [39] + Keys.MatchesFrom(text, 78);
    assert Keys.MatchesFrom(text, 0) == [0, 39];
    assert Keys.FindKeys(text) == [SampleKey, SampleKey];
    assert Keys.Elements(Keys.FindKeys(text)) == {SampleKey};
    TotalKeysCountsDistinct(text);
  }

  /** Of the distinct keys checked, at most all are valid: the corrected summary never claims more valid keys than it counts. */
  lemma ValidWithinTotal(input: string, probes: seq<Probe>)
    requires |probes| == |Keys.UniqueKeys(input)|
    ensures |Kept(Results(Keys.UniqueKeys(input), probes))| <= TotalKeys(input)
  {
  }

  const IdleButtonText: string := "Validate Keys"
  const BusyButtonText: string := "Validating..."
  const NoKeysSummary: string := "No valid API key format found in input."

  /** The window: the input text, the button, the output and summary, the queue, and the keys handed to a worker. */
  class App {
    var input: string
    var buttonEnabled: bool
    var buttonText: string
    var output: seq<string>
    var summary: string
    var queue: MessageQueue
    /** The keys of the last worker thread started, if any. */
    var worker: Option<seq<string>>

    constructor (input: string)
      ensures this.input == input && buttonEnabled && buttonText == IdleButtonText
      ensures output == [] && summary == "Ready." && fresh(queue) && queue.items == [] && worker == None
    {
      this.input := input;
      buttonEnabled, buttonText := true, IdleButtonText;
      output, summary := [], "Ready.";
      queue := new MessageQueue();
      worker := None;
    }

    /**
     * `start_validation_thread`: disables the button, clears the output,
     * empties the queue, and extracts the keys; with none it re-enables the
     * button and starts nothing, otherwise it hands the sorted unique keys
     * to a worker.
     */
    method StartValidation()
      modifies this, queue
      ensures queue == old(queue) && input == old(input)
      ensures queue.items == [] && output == []
      ensures Keys.UniqueKeys(input) == [] ==>
                && buttonEnabled && buttonText == IdleButtonText && summary == NoKeysSummary
                && worker == old(worker)
      ensures Keys.UniqueKeys(input) != [] ==>
                && !buttonEnabled && buttonText == BusyButtonText
                && summary == "Found " + IntToString(|Keys.UniqueKeys(input)|) + " unique keys. Starting validation..."
                && worker == Some(Keys.UniqueKeys(input))
    {
      buttonEnabled, buttonText := false, BusyButtonText;
      output := [];
      summary := "Starting validation...";
      var empty := queue.IsEmpty();
      while !empty
        invariant queue == old(queue) && input == old(input) && worker == old(worker)
        invariant !buttonEnabled && buttonText == BusyButtonText && output == []
        invariant empty <==> queue.items == []
        decreases |queue.items|
      {
        var item := queue.GetNowait();
        if item.None? {
          break;
        }
        empty := queue.IsEmpty();
      }
      var keys := Keys.UniqueKeys(input);
      if keys == [] {
        summary := NoKeysSummary;
        buttonEnabled, buttonText := true, IdleButtonText;
        return;
      }
      summary := "Found " + IntToString(|keys|) + " unique keys. Starting validation...";
      worker := Some(keys);
    }

    /**
     * The `while True` loop of `process_queue`: shows each log line, in
     * order, until the completion message arrives or `get_nowait` finds the
     * queue empty.
     */
    method ShowLines() returns (done: Option<seq<string>>)
      modifies this`output, queue
      ensures var items := old(queue.items);
              match FirstDone(items)
              case Some(d) =>
                done == Some(items[d].valid) && queue.items == items[d + 1..]
                && output == old(output) + Texts(items[..d])
              case None =>
                done == None && queue.items == [] && output == old(output) + Texts(items)
    {
      ghost var items := queue.items;
      ghost var taken := 0;
      while true
        invariant 0 <= taken <= |items| && queue.items == items[taken..]
        invariant forall i :: 0 <= i < taken ==> items[i].Line?
        invariant output == old(output) + Texts(items[..taken])
        decreases |queue.items|
      {
        var item := queue.GetNowait();
        if item.None? {
          break;
        }
        match item.value
        case Done(valid) =>
          FirstDoneAt(items, taken);
          return Some(valid);
        case Line(text) =>
          TextsSnoc(items, taken);
          output := output + [text];
          taken := taken + 1;
      }
      assert items[..taken] == items;
      done := None;
    }

    /** The `DONE` branch of `process_queue`: the summary with the counts, the valid keys, the button back. */
    method Finish(valid: seq<string>)
      modifies this`summary, this`buttonEnabled, this`buttonText, this`output
      ensures summary == CompletionSummary(|valid|, TotalAsWritten(input))
      ensures buttonEnabled && buttonText == IdleButtonText
      ensures output == old(output) + Shown(valid)
    {
      summary := CompletionSummary(|valid|, |Keys.FindKeys(input)|);
      buttonEnabled, buttonText := true, IdleButtonText;
      output := output + Shown(valid);
    }

    /**
     * The end of `process_queue` when no `DONE` message came: poll again
     * while the worker lives; otherwise re-enable the button and report an
     * unexpected end unless the summary already says the validation
     * completed.
     */
    method Idle(threadAlive: bool) returns (polling: bool)
      modifies this`summary, this`buttonEnabled, this`buttonText
      ensures polling == threadAlive
      ensures threadAlive ==> buttonEnabled == old(buttonEnabled) && buttonText == old(buttonText) && summary == old(summary)
      ensures !threadAlive ==>
                && buttonEnabled && buttonText == IdleButtonText
                && summary == if Mentions(old(summary), CompletionMarker) then old(summary) else UnexpectedEndSummary
    {
      polling := threadAlive;
      if !threadAlive {
        buttonEnabled, buttonText := true, IdleButtonText;
        if !Mentions(summary, CompletionMarker) {
          summary := UnexpectedEndSummary;
        }
      }
    }

    /**
     * One call of `process_queue`: shows log lines until the queue is empty
     * or the completion message arrives. On completion it shows the summary
     * and the valid keys, re-enables the button and stops polling;
     * otherwise it polls again while the worker lives, and when the worker
     * is gone re-enables the button and reports an unexpected end unless the
     * summary already says the validation completed.
     */
    method ProcessQueue(threadAlive: bool) returns (polling: bool)
      modifies this`summary, this`buttonEnabled, this`buttonText, this`output, queue
      ensures var items := old(queue.items);
              match FirstDone(items)
              case Some(d) =>
                && queue.items == items[d + 1..]
                && output == old(output) + Texts(items[..d]) + Shown(items[d].valid)
                && summary == CompletionSummary(|items[d].valid|, TotalAsWritten(input))
                && buttonEnabled && buttonText == IdleButtonText && !polling
              case None =>
                && queue.items == []
                && output == old(output) + Texts(items)
                && polling == threadAlive
                && (threadAlive ==> buttonEnabled == old(buttonEnabled) && buttonText == old(buttonText) && summary == old(summary))
                && (!threadAlive ==>
                      && buttonEnabled && buttonText == IdleButtonText
                      && summary == if Mentions(old(summary), CompletionMarker) then old(summary) else UnexpectedEndSummary)
    {
      var done := ShowLines();
      if done.Some? {
        Finish(done.value);
        return false;
      }
      polling := Idle(threadAlive);
    }

    /** The worker thread's run: validates the keys it was handed against their probe outcomes. */
    method RunWorker(probes: seq<Probe>)
      requires worker.Some? && |probes| == |worker.value|
      modifies queue
      ensures queue.items == old(queue.items) + Lines(worker.value, probes) + [Done(Kept(Results(worker.value, probes)))]
    {
      ValidateKeysAsync(worker.value, probes, queue);
    }
  }
}
