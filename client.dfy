/** The live-plot client's message handler (scripts/client.py, `on_message`).
    Each message is a line such as `0 days 00:00:00.016000,-0.1,-0.115`: a
    timestamp field and two numbers. The handler parses the three fields,
    appends them to the parallel lists `ts`, `x_data` and `y_data`, and drops
    the oldest entry of each once more than 500 are held. */
module Client {
  import opened Wrappers
  import opened TextSplit

  /** The wall-clock time `datetime.strptime(text, '%H:%M:%S.%f')` yields. */
  datatype TimeOfDay = TimeOfDay(hour: nat, minute: nat, second: nat, microsecond: nat)

  /** The two library parsers the handler calls, as partial functions:
      `None` stands for the exception they raise on malformed text. */
  datatype Parsers = Parsers(time: string -> Option<TimeOfDay>, number: string -> Option<real>)

  /** The most entries each list keeps. */
  const Capacity: nat := 500

  /** How far the `try` block got before its first exception (if any). The
      bare `except` swallows that exception, so whatever was assigned before
      it is all the handler has. */
  datatype Parsed =
    | NothingParsed
    | TimeOnly(t: TimeOfDay)
    | TimeAndX(t: TimeOfDay, x: real)
    | Complete(t: TimeOfDay, x: real, y: real)

  /** The `try` block: split on ',', take the third whitespace-separated
      token of field 0 as the time, fields 1 and 2 as the numbers. A missing
      field or token is an `IndexError`, caught like a parse error. */
  function Parse(message: string, parsers: Parsers): Parsed
  {
    var data := Split(message, ',');
    var words := Words(data[0]);
    if |words| < 3 then NothingParsed
    else match parsers.time(words[2])
      case None => NothingParsed
      case Some(t) =>
        if |data| < 2 then TimeOnly(t)
        else match parsers.number(data[1])
          case None => TimeOnly(t)
          case Some(x) =>
            if |data| < 3 then TimeAndX(t, x)
            else match parsers.number(data[2])
              case None => TimeAndX(t, x)
              case Some(y) => Complete(t, x, y)
  }

  /** A message is fully parsed exactly when it has at least three fields,
      its field 0 has at least three words, and the third word and fields 1
      and 2 parse; further fields and words are ignored. */
  lemma ParseFields(message: string, parsers: Parsers, t: TimeOfDay, x: real, y: real)
    ensures Parse(message, parsers) == Complete(t, x, y) <==>
              var data := Split(message, ',');
              && |data| >= 3
              && |Words(data[0])| >= 3
              && parsers.time(Words(data[0])[2]) == Some(t)
              && parsers.number(data[1]) == Some(x)
              && parsers.number(data[2]) == Some(y)
  {
  }

  /** The message the source's comment gives as an example. */
  const Example: string := "0 days 00:00:00.016000,-0.1,-0.115"

  /** The example splits into three fields on ','. */
  lemma ExampleFields()
    ensures Split(Example, ',') == ["0 days 00:00:00.016000", "-0.1", "-0.115"]
  {
    assert Example == "0 days 00:00:00.016000" + [','] + "-0.1" + [','] + "-0.115";
    ThreePieces("0 days 00:00:00.016000", "-0.1", "-0.115", ',');
  }

  lemma TimeTextIsWord()
    ensures IsWord("00:00:00.016000")
  {
    var w := "00:00:00.016000";
    forall i | 0 <= i < |w| ensures !IsSpace(w[i]) {
      assert w[i] in "0123456789:.";
    }
  }

  /** Field 0 of the example has three words; the third is the time text. */
  lemma ExampleWords()
    ensures Words("0 days 00:00:00.016000") == ["0", "days", "00:00:00.016000"]
  {
    assert "0 days 00:00:00.016000" == "0" + [' '] + "days" + [' '] + "00:00:00.016000";
    assert IsWord("0") && IsWord("days");
    TimeTextIsWord();
    ThreeWords("0", "days", "00:00:00.016000", ' ');
  }

  /** The example parses completely: its time text is `00:00:00.016000`,
      and x and y are `-0.1` and `-0.115`. */
  lemma ParseExample(parsers: Parsers, t: TimeOfDay, x: real, y: real)
    requires parsers.time("00:00:00.016000") == Some(t)
    requires parsers.number("-0.1") == Some(x)
    requires parsers.number("-0.115") == Some(y)
    ensures Parse(Example, parsers) == Complete(t, x, y)
  {
    ExampleFields();
    ExampleWords();
  }

  /** The local variable the handler reads while it is still unbound, which
      raises `UnboundLocalError` out of the handler. */
  datatype Unbound = TsVal | XVal | YVal

  datatype Outcome = Stored | Raised(unbound: Unbound)

  /** The three lists as values. */
  datatype Buffers = Buffers(ts: seq<TimeOfDay>, xs: seq<real>, ys: seq<real>)

  const Empty := Buffers([], [], [])

  /** The three lists are equally long, so position `i` of each belongs to
      one message. */
  predicate Aligned(b: Buffers)
  {
    |b.ts| == |b.xs| == |b.ys|
  }

  /** What a message does to the lists, as the handler is written: the
      appends run until the first unbound value, and only a handler that
      reaches the end checks the length of `ts`. */
  function Receive(b: Buffers, p: Parsed): Buffers
  {
    match p
    case NothingParsed => b
    case TimeOnly(t) => b.(ts := b.ts + [t])
    case TimeAndX(t, x) => b.(ts := b.ts + [t], xs := b.xs + [x])
    case Complete(t, x, y) =>
      var ts, xs, ys := b.ts + [t], b.xs + [x], b.ys + [y];
      if |ts| > Capacity then Buffers(ts[1..], xs[1..], ys[1..]) else Buffers(ts, xs, ys)
  }

  function OutcomeOf(p: Parsed): Outcome
  {
    match p
    case NothingParsed => Raised(TsVal)
    case TimeOnly(_) => Raised(XVal)
    case TimeAndX(_, _) => Raised(YVal)
    case Complete(_, _, _) => Stored
  }

  /** The last `n` entries of `s` (all of them if there are fewer). */
  function Latest<T>(s: seq<T>, n: nat): (r: seq<T>)
    ensures |r| == if |s| <= n then |s| else n
    ensures r == s[|s| - |r|..]
  {
    if |s| <= n then s else s[|s| - n..]
  }

  /** A fully parsed message appends one value to the end of each list and,
      past the capacity, drops each list's oldest entry: from aligned lists
      of at most 500 entries the result is again aligned, at most 500 long,
      and holds the latest entries. */
  lemma CompleteKeepsWindow(b: Buffers, t: TimeOfDay, x: real, y: real)
    requires Aligned(b) && |b.ts| <= Capacity
    ensures Aligned(Receive(b, Complete(t, x, y)))
    ensures |Receive(b, Complete(t, x, y)).ts| <= Capacity
    ensures Receive(b, Complete(t, x, y)) ==
              Buffers(Latest(b.ts + [t], Capacity), Latest(b.xs + [x], Capacity), Latest(b.ys + [y], Capacity))
  {
  }

  /** The message of the defect report: its time parses, its x text
      `abc` does not, so only the time is bound when the handler reaches
      the appends. */
  lemma ParseBadX(parsers: Parsers, t: TimeOfDay)
    requires parsers.time("00:00:00.016000") == Some(t)
    requires parsers.number("abc") == None
    ensures Parse("0 days 00:00:00.016000,abc,1", parsers) == TimeOnly(t)
  {
    assert "0 days 00:00:00.016000,abc,1" == "0 days 00:00:00.016000" + [','] + "abc" + [','] + "1";
    ThreePieces("0 days 00:00:00.016000", "abc", "1", ',');
    ExampleWords();
  }

  /** A message whose time does not parse changes nothing. */
  lemma NothingParsedUnchanged(b: Buffers)
    ensures Receive(b, NothingParsed) == b
    ensures OutcomeOf(NothingParsed) == Raised(TsVal)
  {
  }

  /** A message whose time parses but whose x or y does not leaves `ts`
      one entry ahead of the list that was not appended to. */
  lemma PartialParseDesyncs(b: Buffers, p: Parsed)
    requires Aligned(b)
    requires p.TimeOnly? || p.TimeAndX?
    ensures !Aligned(Receive(b, p))
    ensures p.TimeOnly? ==> |Receive(b, p).ts| == |Receive(b, p).xs| + 1 == |Receive(b, p).ys| + 1
    ensures p.TimeAndX? ==> |Receive(b, p).ts| == |Receive(b, p).xs| == |Receive(b, p).ys| + 1
  {
  }

  /** The length check is skipped on a partial parse, so `ts` can pass 500;
      after that a fully parsed message appends one and drops one, and
      `ts` never comes back to 500. */
  lemma PartialParseOverflows(b: Buffers, t: TimeOfDay, t': TimeOfDay, x: real, y: real)
    requires Aligned(b) && |b.ts| == Capacity
    ensures |Receive(b, TimeOnly(t)).ts| == Capacity + 1
    ensures |Receive(Receive(b, TimeOnly(t)), Complete(t', x, y)).ts| == Capacity + 1
  {
  }

  /** The lists after a stream of parsed messages, oldest first, with the
      handler as written. */
  function RunAsWritten(b: Buffers, ps: seq<Parsed>): Buffers
  {
    if ps == [] then b else Receive(RunAsWritten(b, ps[..|ps| - 1]), ps[|ps| - 1])
  }

  /** Once `ts` holds more than 500 entries it never shrinks back: no later
      message of any kind brings it under 501, and a stream of fully parsed
      messages keeps it at exactly its length. */
  lemma {:induction false} OverflowPersists(b: Buffers, ps: seq<Parsed>)
    requires |b.ts| > Capacity
    ensures |RunAsWritten(b, ps).ts| >= |b.ts|
    ensures (forall i :: 0 <= i < |ps| ==> ps[i].Complete?) ==> |RunAsWritten(b, ps).ts| == |b.ts|
  {
    if ps != [] {
      var init := ps[..|ps| - 1];
      OverflowPersists(b, init);
      assert forall i :: 0 <= i < |init| ==> init[i] == ps[i];
    }
  }

  /** The handler as the source evidently intends it: a message that does not
      parse completely is reported and leaves all three lists alone. */
  function ReceiveAtomic(b: Buffers, p: Parsed): (r: Buffers)
    ensures !p.Complete? ==> r == b
    ensures p.Complete? ==> r == Receive(b, p)
  {
    if p.Complete? then Receive(b, p) else b
  }

  /** The lists after a stream of parsed messages, oldest first. */
  function Run(b: Buffers, ps: seq<Parsed>): Buffers
  {
    if ps == [] then b else ReceiveAtomic(Run(b, ps[..|ps| - 1]), ps[|ps| - 1])
  }

  /** The values of the fully parsed messages of a stream, in arrival order. */
  function Times(ps: seq<Parsed>): seq<TimeOfDay>
  {
    if ps == [] then []
    else Times(ps[..|ps| - 1]) + (if ps[|ps| - 1].Complete? then [ps[|ps| - 1].t] else [])
  }

  function Xs(ps: seq<Parsed>): seq<real>
  {
    if ps == [] then []
    else Xs(ps[..|ps| - 1]) + (if ps[|ps| - 1].Complete? then [ps[|ps| - 1].x] else [])
  }

  function Ys(ps: seq<Parsed>): seq<real>
  {
    if ps == [] then []
    else Ys(ps[..|ps| - 1]) + (if ps[|ps| - 1].Complete? then [ps[|ps| - 1].y] else [])
  }

  lemma {:induction false} LatestSnoc<T>(s: seq<T>, v: T, n: nat)
    requires 1 <= n
    ensures Latest(Latest(s, n) + [v], n) == Latest(s + [v], n)
  {
  }

  /** One fully parsed message moves the window of latest entries along. */
  lemma CompleteStepLatest(ts: seq<TimeOfDay>, xs: seq<real>, ys: seq<real>, t: TimeOfDay, x: real, y: real)
    requires Aligned(Buffers(Latest(ts, Capacity), Latest(xs, Capacity), Latest(ys, Capacity)))
    ensures ReceiveAtomic(Buffers(Latest(ts, Capacity), Latest(xs, Capacity), Latest(ys, Capacity)), Complete(t, x, y))
              == Buffers(Latest(ts + [t], Capacity), Latest(xs + [x], Capacity), Latest(ys + [y], Capacity))
  {
    CompleteKeepsWindow(Buffers(Latest(ts, Capacity), Latest(xs, Capacity), Latest(ys, Capacity)), t, x, y);
    LatestSnoc(ts, t, Capacity);
    LatestSnoc(xs, x, Capacity);
    LatestSnoc(ys, y, Capacity);
  }

  /** With the corrected handler the lists always hold the latest (at most
      500) fully parsed samples, in arrival order and position-aligned. */
  lemma {:induction false} StreamKeepsLatest(b: Buffers, ps: seq<Parsed>)
    requires Aligned(b) && |b.ts| <= Capacity
    ensures Run(b, ps) ==
              Buffers(Latest(b.ts + Times(ps), Capacity),
                      Latest(b.xs + Xs(ps), Capacity),
                      Latest(b.ys + Ys(ps), Capacity))
    ensures Aligned(Run(b, ps)) && |Run(b, ps).ts| <= Capacity
  {
    if ps == [] {
      assert b.ts + [] == b.ts && b.xs + [] == b.xs && b.ys + [] == b.ys;
    } else {
      var init, p := ps[..|ps| - 1], ps[|ps| - 1];
      StreamKeepsLatest(b, init);
      assert Run(b, ps) == ReceiveAtomic(Run(b, init), p);
      if p.Complete? {
        CompleteStepLatest(b.ts + Times(init), b.xs + Xs(init), b.ys + Ys(init), p.t, p.x, p.y);
        assert b.ts + Times(ps) == (b.ts + Times(init)) + [p.t];
        assert b.xs + Xs(ps) == (b.xs + Xs(init)) + [p.x];
        assert b.ys + Ys(ps) == (b.ys + Ys(init)) + [p.y];
      } else {
        assert Times(ps) == Times(init) + [] == Times(init);
        assert Xs(ps) == Xs(init) + [] == Xs(init);
        assert Ys(ps) == Ys(init) + [] == Ys(init);
      }
    }
  }

  /** The module-level lists of the client. */
  class SampleBuffer {
    var ts: seq<TimeOfDay>
    var xData: seq<real>
    var yData: seq<real>

    function Contents(): Buffers
      reads this
    {
      Buffers(ts, xData, yData)
    }

    constructor ()
      ensures Contents() == Empty
    {
      ts, xData, yData := [], [], [];
    }

    /** `on_message` as written. */
    method OnMessage(message: string, parsers: Parsers) returns (outcome: Outcome)
      modifies this
      ensures Contents() == Receive(old(Contents()), Parse(message, parsers))
      ensures outcome == OutcomeOf(Parse(message, parsers))
    {
      var p := Parse(message, parsers);
      if p.NothingParsed? {
        return Raised(TsVal);
      }
      ts := ts + [p.t];
      if p.TimeOnly? {
        return Raised(XVal);
      }
      xData := xData + [p.x];
      if p.TimeAndX? {
        return Raised(YVal);
      }
      yData := yData + [p.y];
      if |ts| > Capacity {
        ts := ts[1..];
        xData := xData[1..];
        yData := yData[1..];
      }
      return Stored;
    }

    /** `on_message` corrected: all three fields are parsed before anything
        is appended, so a malformed message leaves the lists alone. */
    method OnMessageAtomic(message: string, parsers: Parsers) returns (stored: bool)
      requires Aligned(Contents()) && |ts| <= Capacity
      modifies this
      ensures Contents() == ReceiveAtomic(old(Contents()), Parse(message, parsers))
      ensures stored == Parse(message, parsers).Complete?
      ensures Aligned(Contents()) && |ts| <= Capacity
    {
      var p := Parse(message, parsers);
      stored := p.Complete?;
      if stored {
        ts, xData, yData := ts + [p.t], xData + [p.x], yData + [p.y];
        if |ts| > Capacity {
          ts, xData, yData := ts[1..], xData[1..], yData[1..];
        }
      }
    }
  }
}
