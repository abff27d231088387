/** Recovering the JSON object from a judge's reply (`judge.py`). */
module JudgePayload {
  import opened BraceScan
  import opened Json
  import opened Outcome
  import opened Text

  /** The raw reply: a string, or some other value. */
  datatype JudgeReply = NotText | Content(text: string)

  /** What `json.loads` makes of a text: it raises ValueError, or yields a dict or another value. */
  datatype Loaded<+V> = Malformed | NotAnObject | Object(value: V)

  predicate Backtick(c: char)
  {
    c == '`'
  }

  function StripJsonFence(text: string): string
  {
    var stripped := Strip(text);
    if !StartsWith(stripped, "```") then stripped
    else
      var inner := Strip(StripChars(stripped, Backtick));
      Strip(if StartsWith(inner, "json") then inner[4..] else inner)
  }

  /** `str.find` of one character. */
  function Find(s: string, c: char): Option<nat>
  {
    if s == "" then None
    else if s[0] == c then Some(0)
    else Shift(1, Find(s[1..], c))
  }

  function AsObject<V>(loaded: Loaded<V>): Option<V>
  {
    if loaded.Object? then Some(loaded.value) else None
  }

  lemma {:induction false} FindIsFirst(s: string, c: char)
    ensures Find(s, c) == None <==> c !in s
    ensures Find(s, c).Some? ==> Find(s, c).value < |s| && s[Find(s, c).value] == c && c !in s[..Find(s, c).value]
  {
    if s != "" {
      assert s == [s[0]] + s[1..];
      FindIsFirst(s[1..], c);
      if s[0] != c && Find(s, c).Some? {
        assert s[..Find(s, c).value] == [s[0]] + s[1..][..Find(s[1..], c).value];
      }
    }
  }

  /** The object in the first balanced span, if there is one and it loads. */
  function Recovered<V>(candidate: string, loads: string -> Loaded<V>): Option<V>
  {
    FindIsFirst(candidate, '{');
    match Find(candidate, '{')
    case None => None
    case Some(start) =>
      match Close(candidate[start..], OUTSIDE)
      case None => None
      case Some(n) =>
        CloseInside(candidate[start..], OUTSIDE);
        AsObject(loads(candidate[start..start + n]))
  }

  function Payload<V>(reply: JudgeReply, loads: string -> Loaded<V>): Option<V>
  {
    if reply.NotText? || Strip(reply.text) == "" then None
    else
      var candidate := StripJsonFence(reply.text);
      if loads(candidate).Object? then AsObject(loads(candidate)) else Recovered(candidate, loads)
  }

  method ParseJudgePayload<V>(reply: JudgeReply, loads: string -> Loaded<V>) returns (payload: Option<V>)
    ensures payload == Payload(reply, loads)
  {
    if reply.NotText? || Strip(reply.text) == "" {
      return None;
    }
    var candidate := StripJsonFence(reply.text);
    var parsed := loads(candidate);
    if parsed.Object? {
      return Some(parsed.value);
    }
    var start := Find(candidate, '{');
    if start == None {
      return None;
    }
    FindIsFirst(candidate, '{');
    var end := ScanFrom(candidate, start.value);
    if end == None {
      return None;
    }
    CloseInside(candidate[start.value..], OUTSIDE);
    var recovered := loads(candidate[start.value..end.value]);
    return if recovered.Object? then Some(recovered.value) else None;
  }

  lemma {:induction false} FindAfter(before: string, s: string, c: char)
    requires c !in before && s != "" && s[0] == c
    ensures Find(before + s, c) == Some(|before|)
  {
    if before == "" {
      assert before + s == s;
    } else {
      assert (before + s)[1..] == before[1..] + s;
      FindAfter(before[1..], s, c);
    }
  }

  // ----- what the reply yields, in terms of balanced spans -----

  /** `candidate[start..end]` is the balanced block at the first opening brace. */
  ghost predicate FirstBlock(candidate: string, start: nat, end: nat)
  {
    start <= end <= |candidate| && '{' !in candidate[..start] && IsBlock(candidate[start..end])
  }

  lemma BlockEnds(b: string)
    requires IsBlock(b)
    ensures |b| >= 2 && b[0] == '{' && b[|b| - 1] == '}'
  {}

  lemma FirstBlockStarts(candidate: string, start: nat, end: nat)
    requires FirstBlock(candidate, start, end)
    ensures Find(candidate, '{') == Some(start) && Close(candidate[start..], OUTSIDE) == Some(end - start)
  {
    hide Close, Find, IsBlock;
    BlockEnds(candidate[start..end]);
    assert candidate == candidate[..start] + candidate[start..];
    assert candidate[start..][..end - start] == candidate[start..end];
    FindAfter(candidate[..start], candidate[start..], '{');
    ScanFindsTheBalancedPrefix(candidate[start..], end - start);
  }

  lemma FoundIsFirstBlock(candidate: string, start: nat, n: nat)
    requires Find(candidate, '{') == Some(start)
    requires start <= |candidate| && Close(candidate[start..], OUTSIDE) == Some(n)
    ensures FirstBlock(candidate, start, start + n)
  {
    hide Close, Find, IsBlock;
    FindIsFirst(candidate, '{');
    assert candidate[start..] != "" && candidate[start..][0] == candidate[start];
    ScanFindsTheBalancedPrefix(candidate[start..], n);
    assert candidate[start..][..n] == candidate[start..start + n];
  }

  lemma RecoveredExactly<V(!new)>(candidate: string, loads: string -> Loaded<V>, v: V)
    ensures Recovered(candidate, loads) == Some(v) <==>
      exists start: nat, end: nat :: FirstBlock(candidate, start, end) && loads(candidate[start..end]) == Object(v)
  {
    hide Close, Find, IsBlock;
    FindIsFirst(candidate, '{');
    if Recovered(candidate, loads) == Some(v) {
      var start := Find(candidate, '{').value;
      CloseInside(candidate[start..], OUTSIDE);
      FoundIsFirstBlock(candidate, start, Close(candidate[start..], OUTSIDE).value);
    }
    if start: nat, end: nat :| FirstBlock(candidate, start, end) && loads(candidate[start..end]) == Object(v) {
      FirstBlockStarts(candidate, start, end);
    }
  }

  /**
   A reply yields an object exactly when, after the fence is stripped, either all of it loads as
   that object, or all of it does not load as any and the first balanced block does.
   */
  lemma PayloadExactly<V(!new)>(reply: JudgeReply, loads: string -> Loaded<V>, v: V)
    ensures Payload(reply, loads) == Some(v) <==>
      && reply.Content? && Strip(reply.text) != ""
      && var candidate := StripJsonFence(reply.text);
         || loads(candidate) == Object(v)
         || (!loads(candidate).Object?
             && exists start: nat, end: nat ::
                    FirstBlock(candidate, start, end) && loads(candidate[start..end]) == Object(v))
  {
    hide StripJsonFence, Strip, Close, Find, FirstBlock, IsBlock;
    if reply.Content? && Strip(reply.text) != "" {
      RecoveredExactly(StripJsonFence(reply.text), loads, v);
    }
  }

  // ----- the round trip through prose -----

  ghost predicate Braced(text: string)
  {
    exists before, block, after ::
      Whitespace(before) && IsBlock(block) && Whitespace(after) && text == before + block + after
  }

  /** All that is asked of the JSON reader: what it reads as an object is one block and whitespace. */
  ghost predicate ObjectsAreBraced<V(!new)>(loads: string -> Loaded<V>)
  {
    forall text :: loads(text).Object? ==> Braced(text)
  }

  lemma {:induction false} LeftStripKeeps(s: string, chars: char -> bool, c: char)
    requires !chars(c)
    ensures c in LeftStrip(s, chars) <==> c in s
  {
    if s != "" && chars(s[0]) {
      assert s == [s[0]] + s[1..];
      LeftStripKeeps(s[1..], chars, c);
    }
  }

  lemma StripKeepsTheBlock(p: string, b: string, t: string, chars: char -> bool) returns (q: string, u: string)
    requires |b| >= 2 && b[0] == '{' && b[|b| - 1] == '}' && !chars('{') && !chars('}')
    ensures '{' in q <==> '{' in p
    ensures StripChars(p + b + t, chars) == q + b + u
  {
    StripAround(p, b, t, chars);
    LeftStripKeeps(p, chars, '{');
    q, u := LeftStrip(p, chars), RightStrip(t, chars);
  }

  lemma LongPrefixReaches(q: string, rest: string, word: string)
    requires StartsWith(q + rest, word) && |q| < |word|
    ensures rest[0] in word
  {
    assert word[|q|] == (q + rest)[|q|];
  }

  lemma SpacesAreNotBraces()
    ensures !IsSpace('{') && !IsSpace('}') && forall c :: c in {' ', '\t', '\n', '\r'} ==> IsSpace(c)
  {}

  /** The fence is stripped from around a block, never from inside it. */
  lemma FenceKeepsTheBlock(p: string, b: string, t: string) returns (q: string, u: string)
    requires |b| >= 2 && b[0] == '{' && b[|b| - 1] == '}'
    ensures ('{' in q <==> '{' in p) && StripJsonFence(p + b + t) == q + b + u
  {
    hide StripChars, IsSpace;
    SpacesAreNotBraces();
    q, u := StripKeepsTheBlock(p, b, t, IsSpace);
    if StartsWith(Strip(p + b + t), "```") {
      q, u := StripKeepsTheBlock(q, b, u, Backtick);
      q, u := StripKeepsTheBlock(q, b, u, IsSpace);
      var inner := q + b + u;
      assert inner == q + (b + u);
      if StartsWith(inner, "json") {
        if |q| < 4 { LongPrefixReaches(q, b + u, "json"); }
        assert inner[4..] == q[4..] + b + u;
        assert q[..4] == "json" && q == q[..4] + q[4..];
        q := q[4..];
      }
      q, u := StripKeepsTheBlock(q, b, u, IsSpace);
    }
  }

  /** Text with ends that stay under stripping. */
  predicate Solid(core: string, chars: char -> bool)
  {
    core != "" && !chars(core[0]) && !chars(core[|core| - 1])
  }

  lemma StripBetween(before: string, core: string, after: string, chars: char -> bool)
    requires Solid(core, chars) && (forall c :: c in before + after ==> chars(c))
    ensures StripChars(before + core + after, chars) == core
  {
    assert forall c :: c in before ==> c in before + after;
    assert forall c :: c in after ==> c in before + after;
    AllIsStripped(before, chars);
    AllIsStripped(after, chars);
    StripAround(before, core, after, chars);
    assert "" + core + "" == core;
  }

  /** The fence comes off text whose ends are no backticks. */
  lemma FenceComesOff(inside: string)
    requires Solid(inside, Backtick)
    ensures Strip("```" + inside + "```") == "```" + inside + "```"
    ensures StartsWith("```" + inside + "```", "```")
    ensures StripChars("```" + inside + "```", Backtick) == inside
  {
    hide StripChars;
    var text := "```" + inside + "```";
    StripBetween("", text, "", IsSpace);
    assert "" + text + "" == text;
    StripBetween("```", inside, "```", Backtick);
  }

  /** The mark of a JSON fence comes off, and the whitespace after it. */
  lemma MarkComesOff(before: string, core: string, after: string)
    requires Blank(before) && Blank(after) && Solid(core, IsSpace)
    ensures var inner := Strip("json" + before + core + after);
      StartsWith(inner, "json") && Strip(inner[4..]) == core
  {
    hide StripChars;
    var inner := "json" + before + core;
    StripBetween("", inner, after, IsSpace);
    assert "" + inner + after == "json" + before + core + after;
    assert inner[..4] == "json" && inner[4..] == before + core;
    StripBetween(before, core, "", IsSpace);
    assert before + core + "" == before + core;
  }

  /** What stands in a fence marked as JSON comes out without the fence and the whitespace around it. */
  lemma FenceIsRemoved(before: string, core: string, after: string)
    requires Blank(before) && Blank(after) && Solid(core, IsSpace) && Solid(core, Backtick)
    ensures StripJsonFence("```" + ("json" + before + core + after) + "```") == core
  {
    hide Strip, StripChars, StartsWith;
    var inside := "json" + before + core + after;
    assert inside[0] == 'j';
    assert after == "" ==> inside[|inside| - 1] == core[|core| - 1];
    assert after != "" ==> inside[|inside| - 1] == after[|after| - 1] && IsSpace(after[|after| - 1]);
    FenceComesOff(inside);
    MarkComesOff(before, core, after);
  }

  lemma SolidIsKept(before: string, core: string, after: string)
    requires Blank(before) && Blank(after) && Solid(core, IsSpace)
    ensures Strip(before + core + after) == core && Strip(core) == core
  {
    hide StripChars;
    StripBetween(before, core, after, IsSpace);
    StripBetween("", core, "", IsSpace);
    assert "" + core + "" == core;
  }

  /** So does what stands in a plain fence, unless it begins with that mark itself. */
  lemma PlainFenceIsRemoved(before: string, core: string, after: string)
    requires Blank(before) && Blank(after) && Solid(core, IsSpace) && Solid(core, Backtick)
    requires !StartsWith(core, "json")
    ensures StripJsonFence("```" + (before + core + after) + "```") == core
  {
    hide Strip, StripChars, StartsWith;
    var inside := before + core + after;
    assert before == "" ==> inside[0] == core[0];
    assert before != "" ==> inside[0] == before[0] && IsSpace(before[0]);
    assert after == "" ==> inside[|inside| - 1] == core[|core| - 1];
    assert after != "" ==> inside[|inside| - 1] == after[|after| - 1] && IsSpace(after[|after| - 1]);
    FenceComesOff(inside);
    SolidIsKept(before, core, after);
  }

  /** Without a fence, only the whitespace around the text goes. */
  lemma NoFenceNoChange(before: string, core: string, after: string)
    requires Blank(before) && Blank(after) && Solid(core, IsSpace) && !StartsWith(core, "```")
    ensures StripJsonFence(before + core + after) == core
  {
    StripBetween(before, core, after, IsSpace);
  }

  lemma FenceLeavesTrimmed(text: string)
    requires StripJsonFence(text) != ""
    ensures !IsSpace(StripJsonFence(text)[0]) && !IsSpace(StripJsonFence(text)[|StripJsonFence(text)| - 1])
  {
    hide StripChars, IsSpace;
    var stripped := Strip(text);
    if !StartsWith(stripped, "```") {
      StripTrims(text, IsSpace);
    } else {
      var inner := Strip(StripChars(stripped, Backtick));
      StripTrims(if StartsWith(inner, "json") then inner[4..] else inner, IsSpace);
    }
  }

  lemma BlankEnds(before: string, core: string, after: string)
    requires Whitespace(before) && Whitespace(after)
    ensures before != "" ==> IsSpace((before + core + after)[0])
    ensures after != "" ==> IsSpace((before + core + after)[|before + core + after| - 1])
  {
    if before != "" { assert before[0] in before; }
    if after != "" { assert after[|after| - 1] in after; }
  }

  lemma TrimmedBracedIsBlock(candidate: string)
    requires Braced(candidate)
    requires candidate != "" ==> !IsSpace(candidate[0]) && !IsSpace(candidate[|candidate| - 1])
    ensures IsBlock(candidate)
  {
    hide IsBlock, IsSpace, Whitespace;
    var before, block, after :| Whitespace(before) && IsBlock(block) && Whitespace(after)
                                && candidate == before + block + after;
    BlockEnds(block);
    BlankEnds(before, block, after);
    assert before == "" && after == "";
    assert candidate == block;
  }

  /**
   Prose without an opening brace, a block that loads, and any text after it: the reply yields
   exactly that block's object, whether or not it is fenced.
   */
  lemma BlockIsRecovered<V(!new)>(p: string, b: string, t: string, loads: string -> Loaded<V>, v: V)
    requires '{' !in p && IsBlock(b) && loads(b) == Object(v) && ObjectsAreBraced(loads)
    ensures Payload(Content(p + b + t), loads) == Some(v)
  {
    hide StripJsonFence, StripChars, Close, Find, IsBlock, Braced, IsSpace, Whitespace;
    BlockEnds(b);
    SpacesAreNotBraces();
    var text := p + b + t;
    var q0, u0 := StripKeepsTheBlock(p, b, t, IsSpace);
    assert Strip(text) != "";
    var q, u := FenceKeepsTheBlock(p, b, t);
    var candidate := StripJsonFence(text);
    FenceLeavesTrimmed(text);
    assert candidate[..|q|] == q && candidate[|q|..|q| + |b|] == b;
    assert FirstBlock(candidate, |q|, |q| + |b|);
    if loads(candidate).Object? {
      TrimmedBracedIsBlock(candidate);
      assert candidate[0..|candidate|] == candidate;
      assert FirstBlock(candidate, 0, |candidate|);
      FirstBlockStarts(candidate, |q|, |q| + |b|);
      FirstBlockStarts(candidate, 0, |candidate|);
      assert candidate == b;
    } else {
      PayloadExactly(Content(text), loads, v);
    }
  }

  /** The printer and the scanner: every JSON object, however it is written, comes back out of prose. */
  lemma PrintedObjectIsRecovered<V(!new)>(p: string, j: Json, t: string, loads: string -> Loaded<V>, v: V)
    returns (start: nat, end: nat)
    requires '{' !in p && j.Obj? && Valid(j)
    requires loads(JsonText(j)) == Object(v) && ObjectsAreBraced(loads)
    ensures Payload(Content(p + JsonText(j) + t), loads) == Some(v)
    ensures FirstBlock(StripJsonFence(p + JsonText(j) + t), start, end)
    ensures StripJsonFence(p + JsonText(j) + t)[start..end] == JsonText(j)
  {
    hide StripJsonFence, Close, Find, IsBlock, Braced, JsonText, Valid, Payload;
    TextIsBalanced(j);
    BlockIsRecovered(p, JsonText(j), t, loads, v);
    BlockEnds(JsonText(j));
    var q, u := FenceKeepsTheBlock(p, JsonText(j), t);
    var candidate := StripJsonFence(p + JsonText(j) + t);
    assert candidate[..|q|] == q && candidate[|q|..|q| + |JsonText(j)|] == JsonText(j);
    start, end := |q|, |q| + |JsonText(j)|;
  }

  lemma BlockOfX()
    ensures AllGood([Other('x')]) && Print(Block([Other('x')])) == "{x}"
  {
    assert PrintAll([Other('x')]) == Print(Other('x')) + PrintAll([]);
  }

  /** The scan finds the very block that prose surrounds exactly when the prose before it has no opening brace. */
  lemma BlockIsFoundExactly(p: string, b: string, t: string) returns (q: string, u: string)
    requires IsBlock(b)
    ensures StripJsonFence(p + b + t) == q + b + u
    ensures FirstBlock(q + b + u, |q|, |q| + |b|) <==> '{' !in p
  {
    hide StripJsonFence, IsBlock;
    BlockEnds(b);
    q, u := FenceKeepsTheBlock(p, b, t);
    assert (q + b + u)[..|q|] == q && (q + b + u)[|q|..|q| + |b|] == b;
  }

  /** An earlier brace can hide the object altogether. */
  lemma EarlierBraceHidesTheObject<V>(loads: string -> Loaded<V>)
    requires loads("{x} {}") == Malformed && loads("{x}") == Malformed
    ensures Payload(Content("{x} {}"), loads) == None
  {
    hide StripChars, Close, IsSpace;
    var text := "{x} {}";
    SpacesAreNotBraces();
    StripAround("", text, "", IsSpace);
    assert "" + text + "" == text;
    assert text[..3] != "```" by { assert text[..3][0] == '{'; }
    BlockOfX();
    ReadsBlock([Other('x')], " {}");
    assert text == "{x}" + " {}";
    assert text[0..] == text && text[0..3] == "{x}";
  }
}
