/** The incremental line parser over a response body: however the text is cut into fragments, it
    yields what the whole text's lines yield. */
module EventStream {
  import opened Basics
  import opened Trimming

  /** White space and line terminators of ECMAScript's `trim`. */
  predicate IsJsSpace(c: char) {
    || '\t' <= c <= '\r' || c == ' ' || c == '\U{A0}' || c == '\U{1680}' || '\U{2000}' <= c <= '\U{200A}'
    || c == '\U{2028}' || c == '\U{2029}' || c == '\U{202F}' || c == '\U{205F}' || c == '\U{3000}' || c == '\U{FEFF}'
  }

  function JsTrim(s: string): string {
    Trim(s, IsJsSpace)
  }

  datatype Line = Ignored | Done | Payload(data: string)

  /** What one line means: comments, blanks and other fields are ignored. */
  function Classify(line: string): Line {
    var trimmed := JsTrim(line);
    if trimmed == [] || ":" <= trimmed then Ignored
    else if !("data:" <= trimmed) then Ignored
    else
      var data := JsTrim(trimmed[5..]);
      if data == "[DONE]" then Done else Payload(data)
  }

  // ---------------------------------------------------------------- the whole text at once

  /** Position of the first newline, or the length. */
  function Newline(text: string): (i: nat)
    ensures i <= |text| && (i < |text| ==> text[i] == '\n')
    ensures forall j :: 0 <= j < i ==> text[j] != '\n'
  {
    if text == [] || text[0] == '\n' then 0 else 1 + Newline(text[1..])
  }

  /** The lines that end in a newline. */
  function Lines(text: string): seq<string>
    decreases |text|
  {
    if Newline(text) == |text| then []
    else [text[..Newline(text)]] + Lines(text[Newline(text) + 1..])
  }

  /** What follows the last newline. */
  function Rest(text: string): string
    decreases |text|
  {
    if Newline(text) == |text| then text else Rest(text[Newline(text) + 1..])
  }

  ghost predicate Stops(lines: seq<string>) {
    exists i :: 0 <= i < |lines| && Classify(lines[i]).Done?
  }

  /** The parsed payloads of the lines before the first `[DONE]`; malformed ones are left out. */
  function Yields<Chunk>(lines: seq<string>, parse: string -> Option<Chunk>): seq<Chunk> {
    if lines == [] || Classify(lines[0]).Done? then []
    else YieldOf(lines[0], parse) + Yields(lines[1..], parse)
  }

  function YieldOf<Chunk>(line: string, parse: string -> Option<Chunk>): seq<Chunk> {
    match Classify(line)
    case Payload(data) => if parse(data).Some? then [parse(data).value] else []
    case _ => []
  }

  function Flatten(fragments: seq<string>): string {
    if fragments == [] then [] else Flatten(fragments[..|fragments| - 1]) + fragments[|fragments| - 1]
  }

  // ---------------------------------------------------------------- how they fit together

  lemma NewlineOfConcat(a: string, b: string)
    ensures Newline(a + b) == if Newline(a) < |a| then Newline(a) else |a| + Newline(b)
  {
    var i, k := Newline(a + b), if Newline(a) < |a| then Newline(a) else |a| + Newline(b);
    assert k < |a + b| ==> (a + b)[k] == '\n';
    assert i < |a + b| ==> (a + b)[i] == '\n';
    assert forall j :: 0 <= j < k ==> (a + b)[j] != '\n';
  }

  lemma FirstLine(text: string, line: string, tail: string)
    requires Newline(text) < |text| && line == text[..Newline(text)] && tail == text[Newline(text) + 1..]
    ensures Lines(text) == [line] + Lines(tail)
    ensures Rest(text) == Rest(tail)
  {
    assert Newline(text) != |text|;
  }

  /** More text continues the unterminated line and adds lines after it. */
  lemma {:induction false} LinesOfConcat(a: string, b: string)
    ensures Lines(a + b) == Lines(a) + Lines(Rest(a) + b)
    ensures Rest(a + b) == Rest(Rest(a) + b)
    decreases |a|
  {
    if Newline(a) < |a| {
      var line, tail := a[..Newline(a)], a[Newline(a) + 1..];
      LinesOfConcat(tail, b);
      FirstLine(a, line, tail);
      FirstLineOfConcat(a, b, line, tail);
      Prepend(line, Lines(tail), Lines(Rest(tail) + b));
    } else {
      assert Lines(a) == [] && Rest(a) == a;
    }
  }

  lemma FirstLineOfConcat(a: string, b: string, line: string, tail: string)
    requires Newline(a) < |a| && line == a[..Newline(a)] && tail == a[Newline(a) + 1..]
    ensures Lines(a + b) == [line] + Lines(tail + b)
    ensures Rest(a + b) == Rest(tail + b)
  {
    NewlineOfConcat(a, b);
    assert (a + b)[..Newline(a)] == line;
    assert (a + b)[Newline(a) + 1..] == tail + b;
    FirstLine(a + b, line, tail + b);
  }

  lemma Prepend(line: string, some: seq<string>, more: seq<string>)
    ensures [line] + (some + more) == ([line] + some) + more
  {
  }

  lemma {:induction false} YieldsOfConcat<Chunk>(a: seq<string>, b: seq<string>, parse: string -> Option<Chunk>)
    ensures Yields(a + b, parse) == if Stops(a) then Yields(a, parse) else Yields(a, parse) + Yields(b, parse)
  {
    if a == [] {
      assert a + b == b;
    } else {
      var tail := a[1..];
      StopsOfFirst(a);
      FirstYields(a, parse);
      FirstYields(a + b, parse);
      FirstOfConcat(a, b);
      YieldsOfConcat(tail, b, parse);
      Regroup(YieldOf(a[0], parse), Yields(tail, parse), Yields(b, parse));
    }
  }

  lemma FirstYields<Chunk>(lines: seq<string>, parse: string -> Option<Chunk>)
    requires lines != []
    ensures Yields(lines, parse) ==
            if Classify(lines[0]).Done? then [] else YieldOf(lines[0], parse) + Yields(lines[1..], parse)
  {
  }

  lemma Regroup<T>(a: seq<T>, b: seq<T>, c: seq<T>)
    ensures a + (b + c) == (a + b) + c
  {
  }

  lemma FirstOfConcat<T>(a: seq<T>, b: seq<T>)
    requires a != []
    ensures a + b != [] && (a + b)[0] == a[0] && (a + b)[1..] == a[1..] + b
  {
  }

  lemma StopsOfFirst(a: seq<string>)
    requires a != []
    ensures Stops(a) <==> Classify(a[0]).Done? || Stops(a[1..])
  {
    assert a == [a[0]] + a[1..];
    StopsOfConcat([a[0]], a[1..]);
    assert Stops([a[0]]) <==> Classify([a[0]][0]).Done?;
  }

  lemma StopsOfConcat(a: seq<string>, b: seq<string>)
    ensures Stops(a + b) <==> Stops(a) || Stops(b)
  {
    if Stops(a) {
      var i :| 0 <= i < |a| && Classify(a[i]).Done?;
      assert (a + b)[i] == a[i];
    }
    if Stops(b) {
      var i :| 0 <= i < |b| && Classify(b[i]).Done?;
      assert (a + b)[|a| + i] == b[i];
    }
  }

  /** Text after a `[DONE]` line changes nothing. */
  lemma NothingAfterDone<Chunk>(a: string, b: string, parse: string -> Option<Chunk>)
    requires Stops(Lines(a))
    ensures Yields(Lines(a + b), parse) == Yields(Lines(a), parse)
  {
    LinesOfConcat(a, b);
    YieldsOfConcat(Lines(a), Lines(Rest(a) + b), parse);
  }

  /** One more line after lines without a `[DONE]`. */
  lemma NextLine<Chunk>(taken: seq<string>, line: string, later: seq<string>, parse: string -> Option<Chunk>)
    requires !Stops(taken)
    ensures Classify(line).Done? ==>
              Stops(taken + [line] + later) && Yields(taken + [line] + later, parse) == Yields(taken, parse)
    ensures !Classify(line).Done? ==>
              !Stops(taken + [line]) && Yields(taken + [line], parse) == Yields(taken, parse) + YieldOf(line, parse)
  {
    assert [line][0] == line && [line][1..] == [];
    assert Stops([line]) <==> Classify([line][0]).Done?;
    StopsOfConcat(taken, [line]);
    StopsOfConcat(taken + [line], later);
    YieldsOfConcat(taken, [line], parse);
    YieldsOfConcat(taken + [line], later, parse);
  }

  lemma {:induction false} FlattenSplit(fragments: seq<string>, n: nat)
    requires n <= |fragments|
    ensures exists tail :: Flatten(fragments) == Flatten(fragments[..n]) + tail
  {
    if n == |fragments| {
      assert fragments[..n] == fragments;
      assert Flatten(fragments) == Flatten(fragments[..n]) + [];
    } else {
      var front := fragments[..|fragments| - 1];
      assert front[..n] == fragments[..n];
      FlattenSplit(front, n);
      var tail :| Flatten(front) == Flatten(fragments[..n]) + tail;
      assert Flatten(fragments) == Flatten(fragments[..n]) + (tail + fragments[|fragments| - 1]);
    }
  }

  // ---------------------------------------------------------------- what lines mean

  /** The line is `data:` and `payload`, but for white space around either. */
  ghost predicate Carries(line: string, payload: string) {
    exists r :: JsTrim(line) == "data:" + r && JsTrim(r) == payload
  }

  /** The line ends the stream. */
  ghost predicate Ends(line: string) {
    Carries(line, "[DONE]")
  }

  /** The line carries a payload that parses to `value`. */
  ghost predicate Gives<Chunk>(line: string, value: Chunk, parse: string -> Option<Chunk>) {
    exists payload :: Carries(line, payload) && payload != "[DONE]" && parse(payload) == Some(value)
  }

  ghost predicate GivesSome<Chunk>(line: string, parse: string -> Option<Chunk>) {
    exists payload :: Carries(line, payload) && payload != "[DONE]" && parse(payload).Some?
  }

  /** `yielded` are the values that the lines at the positions `at` give, in line order; none of them
      follows the end of the stream, and no line before the end that gives a value is left out. */
  ghost predicate YieldsFrom<Chunk>(yielded: seq<Chunk>, lines: seq<string>, at: seq<nat>,
                                    parse: string -> Option<Chunk>)
  {
    && |at| == |yielded| && (forall j, k :: 0 <= j < k < |at| ==> at[j] < at[k])
    && (forall k :: 0 <= k < |at| ==> GivesAt(yielded, lines, at, k, parse))
    && forall i: nat :: i < |lines| && Before(lines, i) && GivesSome(lines[i], parse) ==> i in at
  }

  ghost predicate GivesAt<Chunk>(yielded: seq<Chunk>, lines: seq<string>, at: seq<nat>, k: nat,
                                 parse: string -> Option<Chunk>)
    requires k < |at| == |yielded|
  {
    at[k] < |lines| && Before(lines, at[k]) && Gives(lines[at[k]], yielded[k], parse)
  }

  /** No line up to and including `i` ends the stream. */
  ghost predicate Before(lines: seq<string>, i: nat) {
    i < |lines| && forall j :: 0 <= j <= i ==> !Ends(lines[j])
  }

  lemma CarriesMeaning(line: string, payload: string)
    ensures Carries(line, payload) <==> "data:" <= JsTrim(line) && JsTrim(JsTrim(line)[5..]) == payload
  {
    var trimmed := JsTrim(line);
    if "data:" <= trimmed {
      assert trimmed == "data:" + trimmed[5..];
    }
    if r :| trimmed == "data:" + r && JsTrim(r) == payload {
      assert r == trimmed[5..];
    }
  }

  lemma LineMeaning<Chunk>(line: string, parse: string -> Option<Chunk>)
    ensures Classify(line).Done? <==> Ends(line)
    ensures YieldOf(line, parse) == [] || (|YieldOf(line, parse)| == 1 && Gives(line, YieldOf(line, parse)[0], parse))
    ensures GivesSome(line, parse) ==> YieldOf(line, parse) != []
  {
    var trimmed := JsTrim(line);
    CarriesMeaning(line, "[DONE]");
    if "data:" <= trimmed {
      assert trimmed[0] == 'd';
      CarriesMeaning(line, JsTrim(trimmed[5..]));
    }
    if payload :| Carries(line, payload) && payload != "[DONE]" && parse(payload).Some? {
      CarriesMeaning(line, payload);
    }
  }

  /** What is yielded, without a word about how. */
  lemma {:induction false} YieldsMeaning<Chunk>(lines: seq<string>, parse: string -> Option<Chunk>)
    returns (at: seq<nat>)
    ensures YieldsFrom(Yields(lines, parse), lines, at, parse)
  {
    at := [];
    if lines != [] {
      LineMeaning(lines[0], parse);
      FirstYields(lines, parse);
      if Classify(lines[0]).Done? {
        forall i: nat ensures !Before(lines, i) {
          assert Ends(lines[0]);
        }
      } else {
        var later := YieldsMeaning(lines[1..], parse);
        at := (if YieldOf(lines[0], parse) == [] then [] else [0]) + Later(later);
        PrependYields(lines, later, parse);
      }
    }
  }

  function Later(at: seq<nat>): (later: seq<nat>)
    ensures |later| == |at| && forall k :: 0 <= k < |at| ==> later[k] == at[k] + 1
  {
    seq(|at|, k requires 0 <= k < |at| => at[k] + 1)
  }

  lemma BeforeLater(lines: seq<string>, i: nat)
    requires lines != [] && !Ends(lines[0])
    ensures i + 1 < |lines| ==> (Before(lines, i + 1) <==> Before(lines[1..], i))
    ensures Before(lines, 0)
  {
    var tail := lines[1..];
    if i + 1 < |lines| && Before(lines, i + 1) {
      forall j | 0 <= j <= i ensures !Ends(tail[j]) {
        assert tail[j] == lines[j + 1];
      }
    }
    if i + 1 < |lines| && Before(tail, i) {
      forall j | 0 <= j <= i + 1 ensures !Ends(lines[j]) {
        assert j > 0 ==> lines[j] == tail[j - 1];
      }
    }
  }

  lemma PrependYields<Chunk>(lines: seq<string>, later: seq<nat>, parse: string -> Option<Chunk>)
    requires lines != [] && !Ends(lines[0])
    requires YieldsFrom(Yields(lines[1..], parse), lines[1..], later, parse)
    requires Yields(lines, parse) == YieldOf(lines[0], parse) + Yields(lines[1..], parse)
    ensures var at := (if YieldOf(lines[0], parse) == [] then [] else [0]) + Later(later);
            YieldsFrom(Yields(lines, parse), lines, at, parse)
  {
    var first, rest := YieldOf(lines[0], parse), Yields(lines[1..], parse);
    var zero := if first == [] then [] else [0];
    LineMeaning(lines[0], parse);
    assert |first| == |zero|;
    forall k | 0 <= k < |zero + Later(later)|
      ensures GivesAt(first + rest, lines, zero + Later(later), k, parse)
    {
      PrependedGives(lines, first, rest, zero, later, k, parse);
    }
    forall i: nat | i < |lines| && Before(lines, i) && GivesSome(lines[i], parse) ensures i in zero + Later(later) {
      PrependedHasAll(lines, first, rest, zero, later, i, parse);
    }
  }

  lemma PrependedGives<Chunk>(lines: seq<string>, first: seq<Chunk>, rest: seq<Chunk>, zero: seq<nat>, later: seq<nat>,
                              k: nat, parse: string -> Option<Chunk>)
    requires lines != [] && !Ends(lines[0]) && |first| == |zero| <= 1 && (zero != [] ==> zero[0] == 0)
    requires first != [] ==> Gives(lines[0], first[0], parse)
    requires |rest| == |later| && k < |zero| + |later|
    requires k >= |first| ==> GivesAt(rest, lines[1..], later, k - |first|, parse)
    ensures GivesAt(first + rest, lines, zero + Later(later), k, parse)
  {
    if k < |first| {
      BeforeLater(lines, 0);
      assert (zero + Later(later))[k] == zero[k] && (first + rest)[k] == first[k];
    } else {
      LaterGives(lines, rest, later, k - |first|, parse);
      assert (zero + Later(later))[k] == Later(later)[k - |first|] && (first + rest)[k] == rest[k - |first|];
    }
  }

  lemma LaterGives<Chunk>(lines: seq<string>, rest: seq<Chunk>, later: seq<nat>, i: nat,
                          parse: string -> Option<Chunk>)
    requires lines != [] && !Ends(lines[0]) && |rest| == |later| && i < |later|
    requires GivesAt(rest, lines[1..], later, i, parse)
    ensures GivesAt(rest, lines, Later(later), i, parse)
  {
    BeforeLater(lines, later[i]);
  }

  lemma PrependedHasAll<Chunk>(lines: seq<string>, first: seq<Chunk>, rest: seq<Chunk>, zero: seq<nat>,
                               later: seq<nat>, i: nat, parse: string -> Option<Chunk>)
    requires i < |lines| && !Ends(lines[0]) && zero == if first == [] then [] else [0]
    requires GivesSome(lines[0], parse) ==> first != []
    requires YieldsFrom(rest, lines[1..], later, parse) && Before(lines, i) && GivesSome(lines[i], parse)
    ensures i in zero + Later(later)
  {
    if i == 0 {
      assert (zero + Later(later))[0] == 0;
    } else {
      BeforeLater(lines, i - 1);
      assert lines[1..][i - 1] == lines[i] && i - 1 in later;
      var k :| 0 <= k < |later| && later[k] == i - 1;
      assert (zero + Later(later))[|zero| + k] == i;
    }
  }

  // ---- lines of a text

  function Unlines(lines: seq<string>): string {
    if lines == [] then "" else lines[0] + "\n" + Unlines(lines[1..])
  }

  predicate OneLine(s: string) {
    '\n' !in s
  }

  /** A text is its lines, each ended by the only newline there is, and the rest. */
  lemma {:induction false} TextIsItsLines(text: string)
    ensures text == Unlines(Lines(text)) + Rest(text)
    ensures OneLine(Rest(text)) && forall line :: line in Lines(text) ==> OneLine(line)
    decreases |text|
  {
    var n := Newline(text);
    if n < |text| {
      var line, tail := text[..n], text[n + 1..];
      FirstLine(text, line, tail);
      TextIsItsLines(tail);
      UnlinesOne(line, Lines(tail));
      SplitAtNewline(text, n);
      Regroup(line + "\n", Unlines(Lines(tail)), Rest(tail));
    } else {
      assert Lines(text) == [] && Rest(text) == text;
    }
  }

  lemma SplitAtNewline(text: string, n: nat)
    requires n < |text| && text[n] == '\n'
    ensures text == text[..n] + "\n" + text[n + 1..]
  {
  }

  lemma UnlinesOne(line: string, lines: seq<string>)
    ensures Unlines([line] + lines) == line + "\n" + Unlines(lines)
  {
    assert ([line] + lines)[1..] == lines;
  }

  /** The buffer holds what `text` has after the lines `taken`. */
  ghost predicate Buffered(text: string, taken: seq<string>, buffer: string) {
    Lines(text) == taken + Lines(buffer) && Rest(text) == Rest(buffer)
  }

  /** No `[DONE]` came yet, and `yielded` is what was. */
  ghost predicate GoingOn<Chunk>(taken: seq<string>, yielded: seq<Chunk>, parse: string -> Option<Chunk>) {
    !Stops(taken) && yielded == Yields(taken, parse)
  }

  lemma YieldLine<Chunk>(taken: seq<string>, line: string, later: seq<string>, yielded: seq<Chunk>,
                         parse: string -> Option<Chunk>)
    requires GoingOn(taken, yielded, parse)
    ensures if Classify(line).Done? then
              Stops(taken + [line] + later) && yielded == Yields(taken + [line] + later, parse)
            else GoingOn(taken + [line], yielded + YieldOf(line, parse), parse)
  {
    NextLine(taken, line, later, parse);
  }

  lemma TakeOne(text: string, taken: seq<string>, buffer: string)
    requires Buffered(text, taken, buffer) && Newline(buffer) < |buffer|
    ensures var line, rest := buffer[..Newline(buffer)], buffer[Newline(buffer) + 1..];
            Buffered(text, taken + [line], rest) && Lines(text) == taken + [line] + Lines(rest)
  {
    var line, rest := buffer[..Newline(buffer)], buffer[Newline(buffer) + 1..];
    FirstLine(buffer, line, rest);
    Regroup(taken, [line], Lines(rest));
  }

  lemma NothingToTake(text: string, taken: seq<string>, buffer: string)
    requires Buffered(text, taken, buffer) && Newline(buffer) == |buffer|
    ensures Lines(text) == taken && Rest(text) == buffer
  {
    assert Lines(buffer) == [];
  }

  /** The inner loop: take complete lines off the buffer until none is left or `[DONE]` comes. The
      buffer holds what `text` has after the lines `taken`. */
  method TakeLines<Chunk>(start: string, before: seq<Chunk>, parse: string -> Option<Chunk>,
                          ghost text: string, ghost earlier: seq<string>)
    returns (buffer: string, yielded: seq<Chunk>, done: bool)
    requires Buffered(text, earlier, start)
    requires GoingOn(earlier, before, parse)
    ensures yielded == Yields(Lines(text), parse)
    ensures done <==> Stops(Lines(text))
    ensures !done ==> buffer == Rest(text)
  {
    buffer, yielded := start, before;
    ghost var taken := earlier;
    while Newline(buffer) < |buffer|
      invariant Buffered(text, taken, buffer)
      invariant GoingOn(taken, yielded, parse)
      decreases |buffer|
    {
      var idx := Newline(buffer);
      var line := buffer[..idx];
      TakeOne(text, taken, buffer);
      YieldLine(taken, line, Lines(buffer[idx + 1..]), yielded, parse);
      buffer := buffer[idx + 1..];
      if Classify(line).Done? {
        return buffer, yielded, true;
      }
      yielded := yielded + YieldOf(line, parse);
      taken := taken + [line];
    }
    NothingToTake(text, taken, buffer);
    done := false;
  }

  /** The incremental parser: append a fragment to the buffer, then take off complete lines. For
      every way of cutting the text into fragments it yields exactly the payloads of the
      newline-terminated lines of the whole text up to the first `[DONE]`. */
  method IterateSse<Chunk>(fragments: seq<string>, parse: string -> Option<Chunk>) returns (yielded: seq<Chunk>)
    ensures yielded == Yields(Lines(Flatten(fragments)), parse)
    ensures exists at :: YieldsFrom(yielded, Lines(Flatten(fragments)), at, parse)
  {
    ghost var at := YieldsMeaning(Lines(Flatten(fragments)), parse);
    yielded := [];
    var buffer := "";
    for n := 0 to |fragments|
      invariant buffer == Rest(Flatten(fragments[..n]))
      invariant !Stops(Lines(Flatten(fragments[..n])))
      invariant yielded == Yields(Lines(Flatten(fragments[..n])), parse)
    {
      ghost var seen, text := Flatten(fragments[..n]), Flatten(fragments[..n + 1]);
      assert fragments[..n + 1][..n] == fragments[..n];
      LinesOfConcat(seen, fragments[n]);
      var done: bool;
      buffer, yielded, done := TakeLines(buffer + fragments[n], yielded, parse, text, Lines(seen));
      if done {
        FlattenSplit(fragments, n + 1);
        ghost var tail :| Flatten(fragments) == text + tail;
        NothingAfterDone(text, tail, parse);
        return;
      }
    }
    assert fragments[..|fragments|] == fragments;
  }
}
