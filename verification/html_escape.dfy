/** The markup-escaping chain both form routes apply to their free-text field
    (the application's notes, the contact form's message) before placing it in
    the HTML email body: `&` first, then `<`, `>`, `"`, `'`, and finally each
    newline becomes a `<br>` tag. */
module HtmlEscape {
  import opened Strings

  const Amp := "&amp;"
  const Lt := "&lt;"
  const Gt := "&gt;"
  const Quot := "&quot;"
  const Apos := "&#x27;"
  const Br := "<br>"

  /** The chain exactly as the routes write it: six global replacements, in
      order. No quote, apostrophe or newline survives it, and text without any
      of the six special characters passes through unchanged. */
  function EscapeHtml(s: string): (r: string)
    ensures '"' !in r && '\'' !in r && '\n' !in r
    ensures '&' !in s && '<' !in s && '>' !in s && '"' !in s && '\'' !in s && '\n' !in s ==> r == s
  {
    var gt := ReplaceChar(ReplaceChar(ReplaceChar(s, '&', Amp), '<', Lt), '>', Gt);
    LastReplacementsPlain();
    StepsOmit(gt, '"', Quot, '\'', Apos, '\n', Br, '"');
    StepsOmit(gt, '"', Quot, '\'', Apos, '\n', Br, '\'');
    StepsOmit(gt, '"', Quot, '\'', Apos, '\n', Br, '\n');
    ReplaceChar(ReplaceChar(ReplaceChar(gt, '"', Quot), '\'', Apos), '\n', Br)
  }

  /** The last three replacements contain no quote, apostrophe or newline. */
  lemma LastReplacementsPlain()
    ensures '"' !in Quot && '"' !in Apos && '"' !in Br
    ensures '\'' !in Quot && '\'' !in Apos && '\'' !in Br
    ensures '\n' !in Quot && '\n' !in Apos && '\n' !in Br
  {
  }

  /** Three replacements in a row leave no `d` behind when one of them
      replaces `d`, or the text had none, and no replacement introduces it. */
  lemma StepsOmit(t: string, c1: char, rep1: string, c2: char, rep2: string, c3: char, rep3: string, d: char)
    requires d !in rep1 && d !in rep2 && d !in rep3
    requires d == c1 || d == c2 || d == c3 || d !in t
    ensures d !in ReplaceChar(ReplaceChar(ReplaceChar(t, c1, rep1), c2, rep2), c3, rep3)
  {
    var t1 := ReplaceChar(t, c1, rep1);
    var t2 := ReplaceChar(t1, c2, rep2);
    if d == c3 {
      ReplaceCharOmits(t2, c3, rep3, d);
    } else if d == c2 {
      ReplaceCharOmits(t2, c3, rep3, d) by {
        ReplaceCharOmits(t1, c2, rep2, d);
      }
    } else {
      ReplaceCharOmits(t2, c3, rep3, d) by {
        ReplaceCharOmits(t1, c2, rep2, d) by {
          ReplaceCharOmits(t, c1, rep1, d);
        }
      }
    }
  }

  /** Reference definition: what one input character becomes. */
  function EscapeChar(c: char): string {
    match c
    case '&' => Amp
    case '<' => Lt
    case '>' => Gt
    case '"' => Quot
    case '\'' => Apos
    case '\n' => Br
    case _ => [c]
  }

  /** Reference definition: a single left-to-right pass over the input. */
  function EscapeEach(s: string): string {
    if |s| == 0 then "" else EscapeChar(s[0]) + EscapeEach(s[1..])
  }

  /** An entity the escaping produces starts at index `i` of `t`. */
  predicate EntityAt(t: string, i: int) {
    OccursAt(t, Amp, i) || OccursAt(t, Lt, i) || OccursAt(t, Gt, i)
    || OccursAt(t, Quot, i) || OccursAt(t, Apos, i)
  }

  /** The output shape promised for the escaped field: no raw quote or
      apostrophe, every `&` opens an entity, and `<`/`>` occur only as the two
      ends of a `<br>` tag. */
  predicate MarkupSafe(t: string) {
    forall i :: 0 <= i < |t| ==>
      && t[i] != '"' && t[i] != '\''
      && (t[i] == '&' ==> EntityAt(t, i))
      && (t[i] == '<' ==> OccursAt(t, Br, i))
      && (t[i] == '>' ==> OccursAt(t, Br, i - 3))
  }

  /** Decoder for the escaped text: each entity and each `<br>` back to the
      character it stands for; any other character is kept. */
  function Unescape(t: string): string
    decreases |t|
  {
    if |t| == 0 then ""
    else if StartsWith(t, Amp) then "&" + Unescape(t[|Amp|..])
    else if StartsWith(t, Lt) then "<" + Unescape(t[|Lt|..])
    else if StartsWith(t, Gt) then ">" + Unescape(t[|Gt|..])
    else if StartsWith(t, Quot) then "\"" + Unescape(t[|Quot|..])
    else if StartsWith(t, Apos) then "'" + Unescape(t[|Apos|..])
    else if StartsWith(t, Br) then "\n" + Unescape(t[|Br|..])
    else [t[0]] + Unescape(t[1..])
  }

  // ---------------------------------------------------------------------------
  // The chain equals the single pass

  lemma EscapeHtmlAppend(a: string, b: string)
    ensures EscapeHtml(a + b) == EscapeHtml(a) + EscapeHtml(b)
  {
    var s1a, s1b := ReplaceChar(a, '&', Amp), ReplaceChar(b, '&', Amp);
    ReplaceCharAppend(a, b, '&', Amp);
    var s2a, s2b := ReplaceChar(s1a, '<', Lt), ReplaceChar(s1b, '<', Lt);
    ReplaceCharAppend(s1a, s1b, '<', Lt);
    var s3a, s3b := ReplaceChar(s2a, '>', Gt), ReplaceChar(s2b, '>', Gt);
    ReplaceCharAppend(s2a, s2b, '>', Gt);
    var s4a, s4b := ReplaceChar(s3a, '"', Quot), ReplaceChar(s3b, '"', Quot);
    ReplaceCharAppend(s3a, s3b, '"', Quot);
    var s5a, s5b := ReplaceChar(s4a, '\'', Apos), ReplaceChar(s4b, '\'', Apos);
    ReplaceCharAppend(s4a, s4b, '\'', Apos);
    ReplaceCharAppend(s5a, s5b, '\n', Br);
  }

  lemma ReplaceSingle(c: char, d: char, rep: string)
    ensures ReplaceChar([c], d, rep) == if c == d then rep else [c]
  {
    assert [c][1..] == [];
  }

  /** The five replacements after the first leave text alone when it has
      none of the characters they replace. */
  lemma LaterStepsKeep(t: string)
    requires '<' !in t && '>' !in t && '"' !in t && '\'' !in t && '\n' !in t
    ensures
      ReplaceChar(ReplaceChar(ReplaceChar(ReplaceChar(ReplaceChar(t,
        '<', Lt), '>', Gt), '"', Quot), '\'', Apos), '\n', Br) == t
  {
  }

  lemma ChainAmp(c: char)
    requires c == '&'
    ensures EscapeHtml([c]) == Amp
  {
    ReplaceSingle(c, '&', Amp);
    assert ReplaceChar([c], '&', Amp) == Amp;
    LaterStepsKeep(Amp);
  }

  lemma ChainLt(c: char)
    requires c == '<'
    ensures EscapeHtml([c]) == Lt
  {
    ReplaceSingle(c, '&', Amp);
    ReplaceSingle(c, '<', Lt);
    assert ReplaceChar(ReplaceChar([c], '&', Amp), '<', Lt) == Lt;
  }

  lemma ChainGt(c: char)
    requires c == '>'
    ensures EscapeHtml([c]) == Gt
  {
    ReplaceSingle(c, '&', Amp);
    ReplaceSingle(c, '<', Lt);
    ReplaceSingle(c, '>', Gt);
    assert ReplaceChar(ReplaceChar(ReplaceChar([c], '&', Amp), '<', Lt), '>', Gt) == Gt;
  }

  lemma ChainQuot(c: char)
    requires c == '"'
    ensures EscapeHtml([c]) == Quot
  {
    ReplaceSingle(c, '&', Amp);
    ReplaceSingle(c, '<', Lt);
    ReplaceSingle(c, '>', Gt);
    ReplaceSingle(c, '"', Quot);
    var q := ReplaceChar(ReplaceChar(ReplaceChar(ReplaceChar([c], '&', Amp), '<', Lt), '>', Gt), '"', Quot);
    assert q == Quot;
    assert '\'' !in q && '\n' !in q;
  }

  lemma ChainApos(c: char)
    requires c == '\''
    ensures EscapeHtml([c]) == Apos
  {
    ReplaceSingle(c, '&', Amp);
    ReplaceSingle(c, '<', Lt);
    ReplaceSingle(c, '>', Gt);
    ReplaceSingle(c, '"', Quot);
    ReplaceSingle(c, '\'', Apos);
  }

  lemma ChainOther(c: char)
    requires c != '&' && c != '<' && c != '>' && c != '"' && c != '\''
    ensures EscapeHtml([c]) == if c == '\n' then Br else [c]
  {
    ReplaceSingle(c, '&', Amp);
    ReplaceSingle(c, '<', Lt);
    ReplaceSingle(c, '>', Gt);
    ReplaceSingle(c, '"', Quot);
    ReplaceSingle(c, '\'', Apos);
    ReplaceSingle(c, '\n', Br);
  }

  /** On one character the chain produces exactly `EscapeChar`. */
  lemma EscapeHtmlChar(c: char)
    ensures EscapeHtml([c]) == EscapeChar(c)
  {
    if c == '&' { ChainAmp(c); }
    else if c == '<' { ChainLt(c); }
    else if c == '>' { ChainGt(c); }
    else if c == '"' { ChainQuot(c); }
    else if c == '\'' { ChainApos(c); }
    else { ChainOther(c); }
  }

  /** The six-step chain is the same function as the single pass: the entities
      introduced by one step contain none of the characters later steps replace. */
  lemma {:induction false} EscapeChainIsSinglePass(s: string)
    ensures EscapeHtml(s) == EscapeEach(s)
    decreases |s|
  {
    if |s| == 0 {
    } else {
      assert s == [s[0]] + s[1..];
      EscapeHtmlAppend([s[0]], s[1..]);
      EscapeHtmlChar(s[0]);
      EscapeChainIsSinglePass(s[1..]);
    }
  }

  // ---------------------------------------------------------------------------
  // Shape of the output

  /** An entity is safe on its own: it opens with its `&` and the rest is
      plain letters, digits, `#` and `;`. */
  lemma EntitySafe(e: string)
    requires |e| > 0 && e[0] == '&'
    requires e == Amp || e == Lt || e == Gt || e == Quot || e == Apos
    requires forall i :: 1 <= i < |e| ==> e[i] in "ampltgquo#x27;"
    ensures MarkupSafe(e)
  {
    assert e[0..|e|] == e;
    forall i | 0 <= i < |e|
      ensures e[i] != '"' && e[i] != '\''
      ensures e[i] == '&' ==> EntityAt(e, i)
      ensures e[i] != '<' && e[i] != '>'
    {
      if i > 0 {
        assert e[i] in "ampltgquo#x27;";
      }
    }
  }

  lemma BrSafe(t: string)
    requires t == Br
    ensures MarkupSafe(t)
  {
    assert t == ['<', 'b', 'r', '>'];
    assert OccursAt(t, Br, 0);
  }

  lemma MarkupSafeChar(c: char)
    ensures MarkupSafe(EscapeChar(c))
  {
    var t := EscapeChar(c);
    if c == '&' || c == '<' || c == '>' || c == '"' || c == '\'' {
      assert t == Amp || t == Lt || t == Gt || t == Quot || t == Apos;
      EntitySafe(t);
    } else if c == '\n' {
      BrSafe(t);
    } else {
      assert t == [c];
    }
  }

  lemma MarkupSafeAppend(a: string, b: string)
    requires MarkupSafe(a) && MarkupSafe(b)
    ensures MarkupSafe(a + b)
  {
    var t := a + b;
    forall i | 0 <= i < |t|
      ensures t[i] != '"' && t[i] != '\''
      ensures t[i] == '&' ==> EntityAt(t, i)
      ensures t[i] == '<' ==> OccursAt(t, Br, i)
      ensures t[i] == '>' ==> OccursAt(t, Br, i - 3)
    {
      if i < |a| {
        assert t[i] == a[i];
        if a[i] == '&' {
          if OccursAt(a, Amp, i) { OccursInLeft(a, b, Amp, i); }
          if OccursAt(a, Lt, i) { OccursInLeft(a, b, Lt, i); }
          if OccursAt(a, Gt, i) { OccursInLeft(a, b, Gt, i); }
          if OccursAt(a, Quot, i) { OccursInLeft(a, b, Quot, i); }
          if OccursAt(a, Apos, i) { OccursInLeft(a, b, Apos, i); }
        }
        if a[i] == '<' { OccursInLeft(a, b, Br, i); }
        if a[i] == '>' { OccursInLeft(a, b, Br, i - 3); }
      } else {
        var j := i - |a|;
        assert t[i] == b[j];
        if b[j] == '&' {
          if OccursAt(b, Amp, j) { OccursInRight(a, b, Amp, j); }
          if OccursAt(b, Lt, j) { OccursInRight(a, b, Lt, j); }
          if OccursAt(b, Gt, j) { OccursInRight(a, b, Gt, j); }
          if OccursAt(b, Quot, j) { OccursInRight(a, b, Quot, j); }
          if OccursAt(b, Apos, j) { OccursInRight(a, b, Apos, j); }
        }
        if b[j] == '<' { OccursInRight(a, b, Br, j); }
        if b[j] == '>' { OccursInRight(a, b, Br, j - 3); }
      }
    }
  }

  lemma {:induction false} MarkupSafeEach(s: string)
    ensures MarkupSafe(EscapeEach(s))
    decreases |s|
  {
    if |s| > 0 {
      MarkupSafeChar(s[0]);
      MarkupSafeEach(s[1..]);
      MarkupSafeAppend(EscapeChar(s[0]), EscapeEach(s[1..]));
    }
  }

  /** Whatever the input, the escaped text has no raw quote or apostrophe,
      every `&` in it opens one of the five entities, and every `<` or `>` is
      part of a `<br>`. */
  lemma EscapedIsMarkupSafe(s: string)
    ensures MarkupSafe(EscapeHtml(s))
  {
    EscapeChainIsSinglePass(s);
    MarkupSafeEach(s);
  }

  lemma TagCountChar(c: char)
    ensures Count(EscapeChar(c), '<') == (if c == '\n' then 1 else 0)
    ensures Count(EscapeChar(c), '>') == (if c == '\n' then 1 else 0)
  {
    var t := EscapeChar(c);
    if c == '\n' {
      assert t == ['<'] + ['b', 'r', '>'];
      CountAppend(['<'], ['b', 'r', '>'], '<');
      CountAppend(['<'], ['b', 'r', '>'], '>');
      assert ['b', 'r', '>'] == ['b', 'r'] + ['>'];
      CountAppend(['b', 'r'], ['>'], '<');
      CountAppend(['b', 'r'], ['>'], '>');
      CountAbsent(['b', 'r'], '<');
      CountAbsent(['b', 'r'], '>');
    } else {
      assert '<' !in t && '>' !in t;
      CountAbsent(t, '<');
      CountAbsent(t, '>');
    }
  }

  /** Each `<br>` in the escaped text comes from one newline of the input:
      the output has exactly as many `<` and as many `>` as the input has
      newlines. */
  lemma {:induction false} TagsComeFromNewlines(s: string)
    ensures Count(EscapeHtml(s), '<') == Count(s, '\n')
    ensures Count(EscapeHtml(s), '>') == Count(s, '\n')
    decreases |s|
  {
    EscapeChainIsSinglePass(s);
    if |s| > 0 {
      EscapeChainIsSinglePass(s[1..]);
      TagsComeFromNewlines(s[1..]);
      TagCountChar(s[0]);
      CountAppend(EscapeChar(s[0]), EscapeEach(s[1..]), '<');
      CountAppend(EscapeChar(s[0]), EscapeEach(s[1..]), '>');
    }
  }

  // ---------------------------------------------------------------------------
  // Round trip and injectivity

  lemma UnescapeEntity(c: char, rest: string)
    requires c == '&' || c == '<' || c == '>' || c == '"' || c == '\''
    ensures Unescape(EscapeChar(c) + rest) == [c] + Unescape(rest)
  {
    var e := EscapeChar(c);
    var t := e + rest;
    Prefixed(e, rest);
    assert t[0] == '&' && t[1] == e[1];
    if c != '&' { Differs(t, Amp, 1); }
    if c != '&' && c != '<' { Differs(t, Lt, 1); }
    if c != '&' && c != '<' && c != '>' { Differs(t, Gt, 1); }
    if c == '\'' { Differs(t, Quot, 1); }
  }

  lemma UnescapeNewline(c: char, rest: string)
    requires c == '\n'
    ensures Unescape(EscapeChar(c) + rest) == [c] + Unescape(rest)
  {
    var t := Br + rest;
    Prefixed(Br, rest);
    assert t[0] == '<';
    Differs(t, Amp, 0);
    Differs(t, Lt, 0);
    Differs(t, Gt, 0);
    Differs(t, Quot, 0);
    Differs(t, Apos, 0);
  }

  lemma UnescapePlain(c: char, rest: string)
    requires c != '&' && c != '<' && c != '>' && c != '"' && c != '\'' && c != '\n'
    ensures Unescape(EscapeChar(c) + rest) == [c] + Unescape(rest)
  {
    var t := [c] + rest;
    assert EscapeChar(c) == [c];
    assert t[0] == c && t[1..] == rest;
    Differs(t, Amp, 0);
    Differs(t, Lt, 0);
    Differs(t, Gt, 0);
    Differs(t, Quot, 0);
    Differs(t, Apos, 0);
    Differs(t, Br, 0);
  }

  lemma UnescapeChar(c: char, rest: string)
    ensures Unescape(EscapeChar(c) + rest) == [c] + Unescape(rest)
  {
    if c == '&' || c == '<' || c == '>' || c == '"' || c == '\'' {
      UnescapeEntity(c, rest);
    } else if c == '\n' {
      UnescapeNewline(c, rest);
    } else {
      UnescapePlain(c, rest);
    }
  }

  /** Decoding the escaped text gives back the original exactly. */
  lemma {:induction false} UnescapeEscape(s: string)
    ensures Unescape(EscapeHtml(s)) == s
    decreases |s|
  {
    EscapeChainIsSinglePass(s);
    if |s| > 0 {
      UnescapeChar(s[0], EscapeEach(s[1..]));
      UnescapeEscape(s[1..]);
      EscapeChainIsSinglePass(s[1..]);
      assert s == [s[0]] + s[1..];
    }
  }

  /** Distinct inputs give distinct escaped text. */
  lemma EscapeInjective(a: string, b: string)
    ensures EscapeHtml(a) == EscapeHtml(b) ==> a == b
  {
    UnescapeEscape(a);
    UnescapeEscape(b);
  }
}
