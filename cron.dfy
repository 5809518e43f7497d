/**
 * The schedule side of lib.rs: `normalize_cron`, the delay the timer loop sleeps
 * before each fire time, and the process-wide `Schedule` cell that `start_cron`
 * and `stop_cron` empty (aborting what they take out) and `start_cron` refills.
 * The `cron` crate's parser is foreign; it reaches the model as `parse`.
 */
module Cron {
  import opened Wrappers

  // ---------------------------------------------------------------- normalize_cron

  /** Rust's `char::is_whitespace`: the Unicode White_Space property. */
  predicate IsWhitespace(c: char)
    ensures ' ' <= c <= '~' ==> (IsWhitespace(c) <==> c == ' ')
    ensures c == '\t' || c == '\n' || c == '\r' ==> IsWhitespace(c)
  {
    || ('\U{9}' <= c <= '\U{D}') || c == ' ' || c == '\U{85}' || c == '\U{A0}'
    || c == '\U{1680}' || ('\U{2000}' <= c <= '\U{200A}') || c == '\U{2028}' || c == '\U{2029}'
    || c == '\U{202F}' || c == '\U{205F}' || c == '\U{3000}'
  }

  /** The longest prefix of `s` holding no whitespace. */
  function Word(s: string): (w: string)
    ensures |w| <= |s| && w == s[..|w|]
    ensures s != [] && !IsWhitespace(s[0]) ==> |w| >= 1
    ensures forall i :: 0 <= i < |w| ==> !IsWhitespace(w[i])
    ensures |w| < |s| ==> IsWhitespace(s[|w|])
  {
    if s == [] || IsWhitespace(s[0]) then [] else [s[0]] + Word(s[1..])
  }

  /** What `str::split_whitespace` yields: the maximal whitespace-free runs, in order. */
  function Fields(s: string): (fs: seq<string>)
    ensures fs == [] <==> forall i :: 0 <= i < |s| ==> IsWhitespace(s[i])
    decreases |s|
  {
    if s == [] then []
    else if IsWhitespace(s[0]) then Fields(s[1..])
    else
      var w := Word(s);
      [w] + Fields(s[|w|..])
  }

  /** Every field is non-empty and holds no whitespace. */
  lemma {:induction false} FieldsAreWords(s: string)
    ensures forall k :: 0 <= k < |Fields(s)| ==> Fields(s)[k] != []
    ensures forall k, i :: 0 <= k < |Fields(s)| && 0 <= i < |Fields(s)[k]| ==> !IsWhitespace(Fields(s)[k][i])
    decreases |s|
  {
    if s == [] {
    } else if IsWhitespace(s[0]) {
      FieldsAreWords(s[1..]);
    } else {
      FieldsAreWords(s[|Word(s)|..]);
    }
  }

  /**
   * `normalize_cron`: a five-field expression gets a `0` seconds field in front
   * (the `cron` crate wants six or seven fields); any other expression is returned
   * as it is, to be accepted or refused by the parser.
   */
  function NormalizeCron(expr: string): (r: string)
    ensures |Fields(expr)| == 5 ==> r == "0 " + expr
    ensures |Fields(expr)| != 5 ==> r == expr
  {
    if |Fields(expr)| == 5 then "0 " + expr else expr
  }

  /** Prepending `"0 "` adds exactly one field, `"0"`, before the fields of the expression. */
  lemma {:induction false} ZeroSecondsField(expr: string)
    ensures Fields("0 " + expr) == ["0"] + Fields(expr)
  {
    var s := "0 " + expr;
    assert !IsWhitespace(s[0]) && IsWhitespace(s[1]);
    assert Word(s[1..]) == [];
    assert Word(s) == ['0'];
    assert s[1..] == " " + expr;
    assert s[1..][1..] == expr;
    assert Fields(s[1..]) == Fields(expr);
  }

  /** A five-field expression normalises to six fields whose first is the seconds field `0`. */
  lemma NormalizedHasSixFields(expr: string)
    requires |Fields(expr)| == 5
    ensures Fields(NormalizeCron(expr)) == ["0"] + Fields(expr)
    ensures |Fields(NormalizeCron(expr))| == 6
  {
    ZeroSecondsField(expr);
  }

  /** Normalising twice is normalising once. */
  lemma NormalizeIdempotent(expr: string)
    ensures NormalizeCron(NormalizeCron(expr)) == NormalizeCron(expr)
  {
    if |Fields(expr)| == 5 {
      ZeroSecondsField(expr);
    }
  }

  // ---------------------------------------------------------------- the timer loop's delay

  /**
   * The sleep before a fire time: `(next - now).to_std()`, which fails for a
   * negative span and is then replaced by zero. Times are in one integer unit.
   * The loop never wakes before the fire time, and wakes exactly at it unless it
   * is already past.
   */
  function Delay(next: int, now: int): (d: nat)
    ensures now + d >= next
    ensures d > 0 ==> now + d == next
    ensures next <= now ==> d == 0
  {
    if next >= now then next - now else 0
  }

  // ---------------------------------------------------------------- the Schedule cell

  /** What the `cron` crate's `Schedule::from_str` made of an expression. */
  datatype ParseOutcome = Parsed | Rejected(reason: string)

  /** A spawned timer task: its spawn number and the normalised expression it runs. */
  datatype Timer = Timer(id: nat, expr: string)

  const ParseFailedPrefix: string := "解析cron表达式失败:"

  /**
   * `Schedule(Mutex<Option<JoinHandle<()>>>)`: the slot, with the history of the
   * timers spawned and aborted. A timer is live when it was spawned and not
   * aborted; the cell's invariant is that the live timers are exactly the one in
   * the slot, if any.
   */
  class Schedule {
    var slot: Option<Timer>
    var spawned: seq<Timer>
    var aborted: seq<Timer>

    ghost function Live(): set<Timer>
      reads this
    {
      set t | t in spawned && t !in aborted
    }

    ghost predicate Valid()
      reads this
    {
      && (forall i :: 0 <= i < |spawned| ==> spawned[i].id == i)
      && (forall t :: t in aborted ==> t in spawned)
      && Live() == (if slot.Some? then {slot.value} else {})
    }

    /** The cell as the application registers it: empty. */
    constructor ()
      ensures Valid() && slot == None && spawned == [] && aborted == []
    {
      slot := None;
      spawned := [];
      aborted := [];
    }

    /** `if let Some(h) = cell.take() { h.abort(); }`, shared by both commands. */
    method TakeAndAbort()
      requires Valid()
      modifies this
      ensures Valid() && slot == None && Live() == {}
      ensures spawned == old(spawned)
      ensures aborted == old(aborted) + (if old(slot).Some? then [old(slot).value] else [])
    {
      var taken := slot;
      slot := None;
      if taken.Some? {
        var held := taken.value;
        aborted := aborted + [held];
        assert forall t :: t in Live() ==> t in old(Live()) && t != held;
      }
    }

    /**
     * `start_cron`: abort the running timer first, then parse the normalised
     * expression. A refused expression returns the parser's message and leaves the
     * cell empty; an accepted one installs one new timer, the only live one.
     */
    method StartCron(cron: string, parse: string -> ParseOutcome) returns (r: Result<()>)
      requires Valid()
      modifies this
      ensures Valid()
      ensures aborted == old(aborted) + (if old(slot).Some? then [old(slot).value] else [])
      ensures parse(NormalizeCron(cron)).Rejected? ==>
                && r == Err(ParseFailedPrefix + parse(NormalizeCron(cron)).reason)
                && slot == None && spawned == old(spawned) && Live() == {}
      ensures parse(NormalizeCron(cron)).Parsed? ==>
                && r == Ok(())
                && slot == Some(Timer(|old(spawned)|, NormalizeCron(cron)))
                && spawned == old(spawned) + [slot.value]
                && Live() == {slot.value}
    {
      TakeAndAbort();
      var expr := NormalizeCron(cron);
      var parsed := parse(expr);
      if parsed.Rejected? {
        return Err(ParseFailedPrefix + parsed.reason);
      }
      var t := Timer(|spawned|, expr);
      assert t !in spawned;
      spawned := spawned + [t];
      slot := Some(t);
      assert Live() == {t};
      r := Ok(());
    }

    /** `stop_cron`: abort the running timer, if any; the cell is then empty. */
    method StopCron() returns (r: Result<()>)
      requires Valid()
      modifies this
      ensures Valid() && r == Ok(()) && slot == None && Live() == {}
      ensures spawned == old(spawned)
      ensures aborted == old(aborted) + (if old(slot).Some? then [old(slot).value] else [])
    {
      TakeAndAbort();
      r := Ok(());
    }
  }
}
