/** From a line of source text to its tokens (src/assembler/core/parser.c, main.c:50-63). A string of
    the source is a sequence without its NUL. */
module Tokenizer {
  import opened Wrappers
  import opened Words
  import opened Assembler

  const MAX_TOKENS: nat := 4   // include/assembler.h:10

  predicate IsSpace(c: char) { c == ' ' || c == '\t' || c == '\n' || c == '\r' || c as int == 11 || c as int == 12 }

  predicate IsAlnum(c: char) { 'a' <= c <= 'z' || 'A' <= c <= 'Z' || '0' <= c <= '9' }

  predicate IsOperandChar(c: char) { IsAlnum(c) || c == '(' || c == ')' || c == '-' || c == '_' }

  predicate IsLabelChar(c: char) { IsAlnum(c) || c == '_' }

  predicate NotSlash(c: char) { c != '/' }

  function ToLower(c: char): char { if 'A' <= c <= 'Z' then (c as int + 32) as char else c }

  function Lower(s: string): (t: string)
    ensures |t| == |s| && forall i | 0 <= i < |s| :: t[i] == ToLower(s[i])
  {
    seq(|s|, i requires 0 <= i < |s| => ToLower(s[i]))
  }

  /** How many leading characters satisfy p. */
  function Run(s: string, p: char -> bool): (n: nat)
    ensures n <= |s| && (forall i | 0 <= i < n :: p(s[i])) && (n < |s| ==> !p(s[n]))
  {
    if s != "" && p(s[0]) then 1 + Run(s[1..], p) else 0
  }

  function Past(s: string, p: char -> bool): string { s[Run(s, p)..] }

  // ---- operations ----

  function Put(t: string, r: Option<seq<string>>): Option<seq<string>> {
    match r
    case Some(ts) => Some([Lower(t)] + ts)
    case None => None
  }

  /** The operands in s, the first of which is number `count`. */
  function ParseOperands(s: string, count: nat): Option<seq<string>>
    requires s != ""
    decreases |s|
  {
    if count >= MAX_TOKENS then None
    else
      var r := Past(s, IsSpace);
      var n := Run(r, IsOperandChar);
      var after := Past(r[n..], IsSpace);
      if n == 0 then None
      else if after != "" && after[0] == ',' then
        if |after| == 1 then None else Put(r[..n], ParseOperands(after[1..], count + 1))
      else if after != "" && IsOperandChar(after[0]) then None
      else Put(r[..n], Some([]))
  }

  /** parse_operation; None is 0. */
  function ParseOperation(s: string): Option<seq<string>> {
    var r := Past(s, IsSpace);
    var n := Run(r, IsAlnum);
    if n == 0 then None
    else if n < |r| && (r[n] == ',' || r[n] == '(' || r[n] == ')' || r[n] == '-' || r[n] == '_') then None
    else
      var after := Past(r[n..], IsSpace);
      Put(r[..n], if after == "" then Some([]) else ParseOperands(after, 1))
  }

  /** parse_label; None is 0. */
  function ParseLabel(s: string): Option<string> {
    var r := Past(s, IsSpace);
    var n := Run(r, IsLabelChar);
    var after := r[n..];
    if after != "" && IsSpace(after[0]) then None
    else if after != "" && after[0] == ':' && Past(after[1..], IsSpace) != "" then None
    else Some(Lower(r[..n]))
  }

  // ---- lines ----

  /** remove_comments; None is NULL. */
  function StripComment(s: string): Option<string> {
    var n := Run(s, NotSlash);
    if n == |s| then Some(s)
    else if n + 1 < |s| && s[n + 1] == '/' then Some(s[..n] + "\n")
    else None
  }

  predicate IsBlank(s: string) { AllOf(s, IsSpace) }

  predicate AllOf(s: string, p: char -> bool) { forall i | 0 <= i < |s| :: p(s[i]) }

  predicate FullLineComment(s: string) {
    var r := Past(s, IsSpace);
    |r| > 1 && r[0] == '/' && r[1] == '/'
  }

  /** The characters that get_tokens lets through, in the combinations that it lets through. */
  predicate Compatible(s: string) {
    && (forall i | 0 <= i < |s| :: IsSpace(s[i]) || IsOperandChar(s[i]) || s[i] == ',' || s[i] == ':')
    && !(('(' in s || ')' in s) && (':' in s || '_' in s))
    && !('-' in s && ('_' in s || ':' in s))
  }

  /** The white-space test of main.c and get_tokens. */
  function LineOf(s: string): Line {
    if IsBlank(s) then Blank
    else if FullLineComment(s) then Comment
    else
      match StripComment(s)
      case None => Bad
      case Some(t) =>
        if !Compatible(t) then Bad
        else if ':' in t then
          match ParseLabel(t)
          case Some(name) => Label(name)
          case None => Bad
        else
          match ParseOperation(t)
          case Some(tokens) => Op(tokens)
          case None => Bad
  }

  // ---- how operations are written ----

  datatype Operand = Operand(before: string, text: string, after: string)

  datatype Spelling = Spelling(lead: string, op: string, gap: string, operands: seq<Operand>)

  function OperandsText(operands: seq<Operand>): string {
    if operands == [] then ""
    else
      operands[0].before + operands[0].text + operands[0].after
      + if |operands| == 1 then "" else "," + OperandsText(operands[1..])
  }

  function SpellingText(w: Spelling): string { w.lead + w.op + w.gap + OperandsText(w.operands) }

  function Texts(operands: seq<Operand>): seq<string> {
    if operands == [] then [] else [Lower(operands[0].text)] + Texts(operands[1..])
  }

  function Tokens(w: Spelling): seq<string> { [Lower(w.op)] + Texts(w.operands) }

  predicate Proper(o: Operand) { IsBlank(o.before) && IsBlank(o.after) && o.text != "" && AllOf(o.text, IsOperandChar) }

  predicate AllProper(operands: seq<Operand>) { forall i | 0 <= i < |operands| :: Proper(operands[i]) }

  /** Blanks anywhere between the name, up to three operands and their commas; at least one after the
      name of an operation that has operands. */
  predicate WellSpelled(w: Spelling) {
    && IsBlank(w.lead) && IsBlank(w.gap) && w.op != "" && AllOf(w.op, IsAlnum)
    && |w.operands| < MAX_TOKENS && AllProper(w.operands)
        && (w.operands != [] ==> w.gap != "" && w.operands[0].before == "")
  }

  lemma Runs(a: string, b: string, p: char -> bool)
    requires AllOf(a, p) && !Starts(b, p)
    ensures Run(a + b, p) == |a| && (a + b)[|a|..] == b && (a + b)[..|a|] == a && Past(a + b, p) == b
  {
    var s := a + b;
    assert forall i | 0 <= i < |a| :: s[i] == a[i] && p(s[i]);
    assert b != "" ==> s[|a|] == b[0];
  }

  predicate Starts(s: string, p: char -> bool) { s != "" && p(s[0]) }

  lemma OperandStarts(o: Operand, tail: string)
    requires Proper(o) && (tail == "" || tail[0] == ',')
    ensures !Starts(o.text + (o.after + tail), IsSpace) && !Starts(o.after + tail, IsOperandChar)
        && !Starts(tail, IsSpace)
  {
    assert (o.text + (o.after + tail))[0] == o.text[0];
    assert IsOperandChar(o.text[0]);
    assert o.after != "" ==> (o.after + tail)[0] == o.after[0];
  }

  /** One operand and what follows it. */
  lemma OperandRead(o: Operand, tail: string, count: nat)
    requires Proper(o) && count < MAX_TOKENS && (tail == "" || (|tail| > 1 && tail[0] == ','))
    ensures var s := o.before + (o.text + (o.after + tail));
      s != "" && ParseOperands(s, count) == Put(o.text, if tail == "" then Some([])
          else ParseOperands(tail[1..], count + 1))
  {
    hide Run, IsSpace, IsOperandChar, Past, Lower, Put;
    OperandStarts(o, tail);
    Runs(o.before, o.text + (o.after + tail), IsSpace);
    Runs(o.text, o.after + tail, IsOperandChar);
    Runs(o.after, tail, IsSpace);
    SeparatorEnds();
  }

  lemma SeparatorEnds()
    ensures !IsOperandChar(',') && !IsSpace(',') && !IsAlnum(',')
  {
  }

  lemma {:induction false} OperandsRead(operands: seq<Operand>, count: nat)
    requires operands != [] && AllProper(operands) && count + |operands| <= MAX_TOKENS
    ensures OperandsText(operands) != "" && ParseOperands(OperandsText(operands), count) == Some(Texts(operands))
  {
    hide Proper, ParseOperands, Lower;
    var o := operands[0];
    var tail := if |operands| == 1 then "" else "," + OperandsText(operands[1..]);
    assert OperandsText(operands) == o.before + (o.text + (o.after + tail));
    if |operands| > 1 {
      OperandsRead(operands[1..], count + 1);
      assert tail[1..] == OperandsText(operands[1..]);
    }
    OperandRead(o, tail, count);
  }

  lemma SpellingStarts(w: Spelling, rest: string)
    requires WellSpelled(w) && rest == OperandsText(w.operands)
    ensures !Starts(w.op + (w.gap + rest), IsSpace) && !Starts(w.gap + rest, IsOperandChar)
        && !Starts(w.gap + rest, IsAlnum)
    ensures !Starts(rest, IsSpace) && (w.gap + rest == "" || (w.gap + rest)[0] != ',')
  {
    assert (w.op + (w.gap + rest))[0] == w.op[0];
    assert IsAlnum(w.op[0]);
    assert w.gap != "" ==> (w.gap + rest)[0] == w.gap[0];
    if w.operands != [] {
      assert Proper(w.operands[0]);
      assert rest[0] == w.operands[0].text[0];
    }
  }

  lemma NameRead(lead: string, op: string, gap: string, rest: string)
    requires AllOf(lead, IsSpace) && AllOf(op, IsAlnum) && AllOf(gap, IsSpace) && op != ""
    requires !Starts(op + (gap + rest), IsSpace) && !Starts(gap + rest, IsOperandChar) && !Starts(gap + rest, IsAlnum)
    requires !Starts(rest, IsSpace) && (gap + rest == "" || (gap + rest)[0] != ',')
    ensures ParseOperation(lead + (op + (gap + rest))) == Put(op, if rest == "" then Some([])
        else ParseOperands(rest, 1))
  {
    Runs(lead, op + (gap + rest), IsSpace);
    Runs(op, gap + rest, IsAlnum);
    Runs(gap, rest, IsSpace);
    var r, g := op + (gap + rest), gap + rest;
    assert g != "" ==> g[0] == r[|op|];
    hide Run, IsSpace, IsAlnum, Past, Lower, ParseOperands, AllOf, Put;
  }

  /** However it is spaced, an operation reads as its tokens. */
  lemma {:induction false} SpellingRead(w: Spelling)
    requires WellSpelled(w)
    ensures ParseOperation(SpellingText(w)) == Some(Tokens(w))
  {
    hide ParseOperation, Proper, Lower, ParseOperands, AllProper, Starts, AllOf;
    var rest := OperandsText(w.operands);
    assert SpellingText(w) == w.lead + (w.op + (w.gap + rest));
    if w.operands != [] { OperandsRead(w.operands, 1); }
    SpellingStarts(w, rest);
    NameRead(w.lead, w.op, w.gap, rest);
  }

  // ---- and no other text reads as an operation ----

  predicate Plain(c: char) { IsSpace(c) || IsOperandChar(c) || c == ',' }

  lemma RunSplits(s: string, p: char -> bool)
    ensures var n := Run(s, p); s == s[..n] + Past(s, p) && AllOf(s[..n], p) && !Starts(Past(s, p), p)
  {
  }

  /** Leading characters of one kind, then of another. */
  lemma Split(s: string, p: char -> bool, q: char -> bool) returns (a: string, b: string, c: string)
    ensures s == a + (b + c) && a + b == s[..|a| + |b|] && c == s[|a| + |b|..]
    ensures AllOf(a, p) && AllOf(b, q) && !Starts(b + c, p) && !Starts(c, q)
    ensures Past(s, p) == b + c && Run(b + c, q) == |b| && (b + c)[..|b|] == b && (b + c)[|b|..] == c
  {
    hide AllOf, Run;
    var r := Past(s, p);
    RunSplits(s, p);
    RunSplits(r, q);
    a, b, c := s[..Run(s, p)], r[..Run(r, q)], Past(r, q);
  }

  lemma Separator(s: string)
    requires AllOf(s, Plain) && s != "" && !IsSpace(s[0]) && !IsOperandChar(s[0])
    ensures s[0] == ','
  {
  }

  lemma KeepsAll(s: string, n: nat, p: char -> bool)
    requires AllOf(s, p) && n <= |s|
    ensures AllOf(s[n..], p)
  {
  }

  /** The first operand of s and the text after it. */
  lemma OperandFound(s: string, count: nat) returns (o: Operand, after: string)
    requires s != "" && AllOf(s, Plain) && ParseOperands(s, count).Some?
    ensures Proper(o) && s == o.before + (o.text + (o.after + after)) && count < MAX_TOKENS
    ensures after != "" ==> after[0] == ',' && |after| > 1 && AllOf(after[1..], Plain)
    ensures ParseOperands(s, count) == Put(o.text, if after == "" then Some([])
        else ParseOperands(after[1..], count + 1))
    ensures !Starts(s, IsSpace) ==> o.before == ""
  {
    hide IsSpace, IsOperandChar, Plain, Run, Lower, AllOf, Put;
    var before, text, last := Split(s, IsSpace, IsOperandChar);
    RunSplits(last, IsSpace);
    o := Operand(before, text, last[..Run(last, IsSpace)]);
    after := Past(last, IsSpace);
    KeepsAll(s, |before| + |text|, Plain);
    KeepsAll(last, Run(last, IsSpace), Plain);
    CommaIsPlain();
    if after != "" {
      Separator(after);
      KeepsAll(after, 1, Plain);
    }
  }

  lemma {:induction false} OperandsFound(s: string, count: nat) returns (operands: seq<Operand>)
    requires s != "" && AllOf(s, Plain) && ParseOperands(s, count).Some?
    ensures operands != [] && AllProper(operands) && count + |operands| <= MAX_TOKENS
    ensures OperandsText(operands) == s && ParseOperands(s, count) == Some(Texts(operands))
    ensures !Starts(s, IsSpace) ==> operands[0].before == ""
    decreases |s|
  {
    hide IsSpace, Plain, AllOf, Proper, Lower, ParseOperands, Starts;
    var o, after := OperandFound(s, count);
    if after == "" {
      operands := [o];
    } else {
      var rest := OperandsFound(after[1..], count + 1);
      operands := [o] + rest;
      assert operands[1..] == rest;
      assert after == "," + after[1..];
    }
    assert s == o.before + o.text + o.after + after;
  }

  lemma CommaIsPlain()
    ensures !IsSpace(',') && !IsOperandChar(',')
  {
  }

  lemma AfterName(c: char)
    requires Plain(c) && !IsAlnum(c) && c != ',' && c != '(' && c != ')' && c != '-' && c != '_'
    ensures IsSpace(c)
  {
  }

  /** The name and the text after it and the blanks that follow. */
  lemma NameFound(s: string) returns (lead: string, op: string, gap: string, rest: string)
    requires AllOf(s, Plain) && ParseOperation(s).Some?
    ensures s == lead + op + gap + rest && AllOf(lead, IsSpace) && AllOf(op, IsAlnum) && AllOf(gap, IsSpace) && op != ""
    ensures !Starts(rest, IsSpace) && AllOf(rest, Plain) && (rest != "" ==> gap != "")
    ensures ParseOperation(s) == Put(op, if rest == "" then Some([]) else ParseOperands(rest, 1))
  {
    hide IsSpace, IsAlnum, Plain, Run, Past, Lower, AllOf, Put, ParseOperands, Starts;
    var after;
    lead, op, after := Split(s, IsSpace, IsAlnum);
    RunSplits(after, IsSpace);
    gap, rest := after[..Run(after, IsSpace)], Past(after, IsSpace);
    StartsWith(after, IsAlnum);
    KeepsAll(s, |lead| + |op|, Plain);
    KeepsAll(after, |gap|, Plain);
    if after != "" { FirstOf(after, Plain); AfterName(after[0]); }
  }

  lemma StartsWith(s: string, p: char -> bool)
    ensures s != "" && !Starts(s, p) ==> !p(s[0])
  {
  }

  lemma FirstOf(s: string, p: char -> bool)
    requires AllOf(s, p) && s != ""
    ensures p(s[0])
  {
  }

  /** Text that reads as an operation is one of its spellings. */
  lemma {:induction false} SpellingFound(s: string) returns (w: Spelling)
    requires AllOf(s, Plain) && ParseOperation(s).Some?
    ensures WellSpelled(w) && SpellingText(w) == s && ParseOperation(s) == Some(Tokens(w))
  {
    var lead, op, gap, rest := NameFound(s);
    hide IsSpace, Plain, Proper, Lower, ParseOperands, ParseOperation, Starts, AllOf;
    var operands: seq<Operand> := [];
    if rest != "" { operands := OperandsFound(rest, 1); }
    w := Spelling(lead, op, gap, operands);
  }

  /** A text without colons in the characters that may stand together. */
  predicate OperationText(t: string) { Compatible(t) && ':' !in t }

  lemma PlainText(t: string)
    requires OperationText(t)
    ensures AllOf(t, Plain)
  {
  }

  lemma {:induction false} NoBlankSpelling(w: Spelling)
    requires WellSpelled(w)
    ensures !AllOf(SpellingText(w), IsSpace) && !FullLineComment(SpellingText(w))
  {
    var t := SpellingText(w);
    assert t[|w.lead|] == w.op[0] && IsAlnum(w.op[0]);
    assert t == w.lead + (w.op + w.gap + OperandsText(w.operands));
    Runs(w.lead, w.op + w.gap + OperandsText(w.operands), IsSpace);
  }

  /** The text before the first slash is kept; a comment becomes a line end. */
  lemma {:induction false} CommentCut(a: string, c: string)
    requires '/' !in a
    ensures StripComment(a + "//" + c) == Some(a + "\n") && StripComment(a) == Some(a)
  {
    Runs(a, "//" + c, NotSlash);
    assert a + "//" + c == a + ("//" + c) && a + "" == a;
    Runs(a, "", NotSlash);
  }

  /** A line that is blank or only a comment has nothing but white space before the slashes. */
  lemma {:induction false} BlankStrips(s: string)
    requires IsBlank(s) || FullLineComment(s)
    ensures StripComment(s).Some? && AllOf(StripComment(s).value, IsSpace)
  {
    RunSplits(s, IsSpace);
    var n := Run(s, IsSpace);
    if IsBlank(s) {
      assert s[n..] == "";
      assert forall i | 0 <= i < |s| :: NotSlash(s[i]);
    } else {
      assert s[..n] + s[n..] == s && forall i | 0 <= i < n :: NotSlash(s[..n][i]);
      Runs(s[..n], s[n..], NotSlash);
    }
  }

  /** Exactly the spellings of an operation, comment aside, give its tokens. */
  lemma {:induction false} OperationLines(s: string, tokens: seq<string>)
    ensures LineOf(s) == Op(tokens) <==> exists w ::
      WellSpelled(w) && StripComment(s) == Some(SpellingText(w)) && OperationText(SpellingText(w))
          && tokens == Tokens(w)
  {
    hide WellSpelled, SpellingText, Tokens, StripComment, Compatible, ParseOperation, FullLineComment, IsSpace,
         ParseLabel;
    if LineOf(s) == Op(tokens) {
      var t := StripComment(s).value;
      PlainText(t);
      var w := SpellingFound(t);
    }
    forall w | WellSpelled(w) && StripComment(s) == Some(SpellingText(w)) && OperationText(SpellingText(w))
        && tokens == Tokens(w)
      ensures LineOf(s) == Op(tokens)
    {
      NoBlankSpelling(w);
      SpellingRead(w);
      if IsBlank(s) || FullLineComment(s) { BlankStrips(s); }
    }
  }

  // ---- labels ----

  /** The text is a name and then a colon with only white space after it, or a comma. */
  predicate LabelForm(t: string, lead: string, raw: string, rest: string) {
    && t == lead + (raw + rest) && AllOf(lead, IsSpace) && AllOf(raw, IsLabelChar) && rest != ""
    && (rest[0] == ',' || (rest[0] == ':' && AllOf(rest[1..], IsSpace)))
  }

  lemma AfterLabel(t: string, c: char)
    requires Compatible(t) && ':' in t && c in t && !IsSpace(c) && !IsLabelChar(c)
    ensures c == ',' || c == ':'
  {
  }

  lemma ColonLeft(t: string, lead: string, raw: string)
    requires ':' in t && AllOf(lead, IsSpace) && AllOf(raw, IsLabelChar)
    ensures t != lead + raw
  {
    assert forall i | 0 <= i < |lead + raw| :: (lead + raw)[i] != ':' by {
      assert !IsSpace(':') && !IsLabelChar(':');
    }
  }

  lemma {:induction false} LabelFound(t: string)
    requires Compatible(t) && ':' in t && ParseLabel(t).Some?
    ensures exists lead, raw, rest :: LabelForm(t, lead, raw, rest) && ParseLabel(t) == Some(Lower(raw))
  {
    hide IsSpace, IsLabelChar, AllOf, Run, Compatible, Lower, Past;
    var lead, raw, rest := Split(t, IsSpace, IsLabelChar);
    ColonLeft(t, lead, raw);
    assert raw + "" == raw;
    AfterLabel(t, rest[0]);
    AllPast(rest[1..], IsSpace);
    assert LabelForm(t, lead, raw, rest);
  }

  lemma AllPast(s: string, p: char -> bool)
    ensures Past(s, p) == "" <==> AllOf(s, p)
  {
    if AllOf(s, p) { Runs(s, "", p); assert s + "" == s; }
  }

  lemma {:induction false} LabelRead(t: string, lead: string, raw: string, rest: string)
    requires LabelForm(t, lead, raw, rest)
    ensures ParseLabel(t) == Some(Lower(raw))
  {
    assert !IsSpace(',') && !IsSpace(':') && !IsLabelChar(',') && !IsLabelChar(':');
    assert raw + rest != "" && (raw + rest)[0] == if raw == "" then rest[0] else raw[0];
    Runs(lead, raw + rest, IsSpace);
    Runs(raw, rest, IsLabelChar);
    AllPast(rest[1..], IsSpace);
  }

  /** Exactly what is taken for a label. */
  lemma {:induction false} LabelTexts(t: string, name: string)
    requires Compatible(t) && ':' in t
    ensures ParseLabel(t) == Some(name) <==> exists lead, raw, rest ::
        LabelForm(t, lead, raw, rest) && name == Lower(raw)
  {
    hide ParseLabel, LabelForm, Compatible, Lower;
    if ParseLabel(t) == Some(name) { LabelFound(t); }
    forall lead, raw, rest | LabelForm(t, lead, raw, rest) && name == Lower(raw)
      ensures ParseLabel(t) == Some(name)
    {
      LabelRead(t, lead, raw, rest);
    }
  }

  /** The form that the comment above parse_label documents: a name, a colon, and only white space. */
  predicate DocumentedForm(t: string, lead: string, raw: string, rest: string) {
    LabelForm(t, lead, raw, rest) && raw != "" && rest[0] == ':'
  }

  ghost predicate Documented(t: string) { exists lead, raw, rest :: DocumentedForm(t, lead, raw, rest) }

  /** The text has a name after its white space. */
  predicate Named(t: string) { Starts(Past(t, IsSpace), IsLabelChar) }

  /** A comma stands where the name ends. */
  predicate CommaNext(t: string) { Starts(Past(Past(t, IsSpace), IsLabelChar), c => c == ',') }

  lemma LabelSplit(t: string, lead: string, raw: string, rest: string)
    requires LabelForm(t, lead, raw, rest)
    ensures Named(t) <==> raw != ""
    ensures CommaNext(t) <==> rest[0] == ','
  {
    assert !IsSpace(',') && !IsSpace(':') && !IsLabelChar(',') && !IsLabelChar(':');
    assert raw + rest != "" && (raw + rest)[0] == if raw == "" then rest[0] else raw[0];
    Runs(lead, raw + rest, IsSpace);
    Runs(raw, rest, IsLabelChar);
    assert raw != "" ==> IsLabelChar(raw[0]);
  }

  /** The documented labels are those texts that are taken for a label, have a name, and no comma
      after it. More is taken: "a,b:" and ":" (CommaLabel, EmptyLabel). */
  lemma {:induction false} DocumentedLabels(t: string)
    requires Compatible(t) && ':' in t
    ensures Documented(t) <==> ParseLabel(t).Some? && Named(t) && !CommaNext(t)
  {
    hide ParseLabel, LabelForm, Compatible, Lower, Named, CommaNext;
    forall lead, raw, rest | DocumentedForm(t, lead, raw, rest)
      ensures ParseLabel(t).Some? && Named(t) && !CommaNext(t)
    {
      LabelRead(t, lead, raw, rest);
      LabelSplit(t, lead, raw, rest);
      ColonIsNoComma(rest);
    }
    if ParseLabel(t).Some? && Named(t) && !CommaNext(t) {
      LabelFound(t);
      var lead, raw, rest :| LabelForm(t, lead, raw, rest);
      LabelSplit(t, lead, raw, rest);
      EndsName(t, lead, raw, rest);
      assert DocumentedForm(t, lead, raw, rest);
    }
  }

  lemma ColonIsNoComma(rest: string)
    ensures rest != "" && rest[0] == ':' ==> rest[0] != ','
  {
  }

  lemma EndsName(t: string, lead: string, raw: string, rest: string)
    requires LabelForm(t, lead, raw, rest)
    ensures rest != "" && (rest[0] == ',' || rest[0] == ':')
  {
  }

  lemma CommaText(t: string)
    requires t == "a,b:"
    ensures Compatible(t) && ':' in t && !IsBlank(t) && Past(t, IsSpace) == t && StripComment(t) == Some(t)
        && LabelForm(t, "", "a", ",b:")
  {
    assert t[0] == 'a' && t[1] == ',' && t[2] == 'b' && t[3] == ':';
    assert !IsSpace('a') && IsLabelChar('a') && IsOperandChar('b');
    assert "" + ("a" + ",b:") == t;
    NoSlash(t);
    hide StripComment;
  }

  lemma {:induction false} CommaLabel()
    ensures LineOf("a,b:") == Label("a") && !Documented("a,b:")
  {
    hide ParseLabel, StripComment, Compatible, IsBlank, LabelForm, Past, Documented, CommaNext;
    CommaText("a,b:");
    LabelRead("a,b:", "", "a", ",b:");
    LabelSplit("a,b:", "", "a", ",b:");
    DocumentedLabels("a,b:");
    assert Lower("a") == "a";
  }

  lemma ColonText(t: string)
    requires t == ":"
    ensures Compatible(t) && ':' in t && !IsBlank(t) && Past(t, IsSpace) == t && StripComment(t) == Some(t)
        && LabelForm(t, "", "", ":")
  {
    assert t[0] == ':' && !IsSpace(':');
    assert "" + ("" + ":") == t;
    NoSlash(t);
    hide StripComment;
  }

  lemma {:induction false} EmptyLabel()
    ensures LineOf(":") == Label("") && !Documented(":")
  {
    hide ParseLabel, StripComment, Compatible, IsBlank, LabelForm, Past, Documented, Named;
    ColonText(":");
    LabelRead(":", "", "", ":");
    LabelSplit(":", "", "", ":");
    DocumentedLabels(":");
    assert Lower("") == "";
  }

  // ---- the code ----

  /** `s++` while the character satisfies p; what was passed, in lower case. */
  method Scan(s: string, p: char -> bool) returns (t: string, rest: string)
    ensures t == Lower(s[..Run(s, p)]) && rest == Past(s, p)
  {
    t, rest := "", s;
    ghost var n := 0;
    while rest != "" && p(rest[0])
      invariant n <= |s| && rest == s[n..] && t == Lower(s[..n]) && Run(s, p) == n + Run(rest, p)
      decreases |rest|
    {
      t := t + [ToLower(rest[0])];
      n, rest := n + 1, rest[1..];
    }
  }

  method ReadLabel(s: string) returns (name: Option<string>)
    ensures name == ParseLabel(s)
  {
    var _, rest := Scan(s, IsSpace);
    var t, after := Scan(rest, IsLabelChar);
    if after != "" && IsSpace(after[0]) { return None; }
    if after != "" && after[0] == ':' {
      var _, last := Scan(after[1..], IsSpace);
      if last != "" { return None; }
    }
    name := Some(t);
  }

  /** The tokens read so far before those still to come. */
  function After(done: seq<string>, r: Option<seq<string>>): Option<seq<string>> {
    match r
    case Some(ts) => Some(done + ts)
    case None => None
  }

  lemma AfterTwice(done: seq<string>, more: seq<string>, r: Option<seq<string>>)
    ensures After(done, After(more, r)) == After(done + more, r)
  {
    if r.Some? { assert done + (more + r.value) == done + more + r.value; }
  }

  lemma AfterNothing(done: seq<string>, t: string, r: Option<seq<string>>)
    ensures After([], r) == r && After(done, Some([])) == Some(done) && Put(t, Some([])) == Some([Lower(t)])
  {
    if r.Some? { assert [] + r.value == r.value; }
    assert done + [] == done && [Lower(t)] + [] == [Lower(t)];
  }

  /** parse_operation. */
  method ReadOperation(s: string) returns (tokens: Option<seq<string>>)
    ensures tokens == ParseOperation(s)
  {
    hide Run, IsSpace, IsAlnum, IsOperandChar, Lower;
    var _, rest := Scan(s, IsSpace);
    var op, after := Scan(rest, IsAlnum);
    if op == "" { return None; }
    if after != "" && (after[0] == ',' || after[0] == '(' || after[0] == ')' || after[0] == '-'
        || after[0] == '_') { return None; }
    var _, operands := Scan(after, IsSpace);
    AfterNothing([], rest[..Run(rest, IsAlnum)], None);
    if operands == "" { return Some([op]); }
    var read := ReadOperands(operands);
    tokens := After([op], read);
  }

  /** One turn of the loop: an operand, and what follows the comma after it. */
  method ReadOperand(s: string, count: nat) returns (ok: bool, t: string, next: string)
    requires s != ""
    ensures ParseOperands(s, count) == if !ok then None
        else After([t], if next == "" then Some([]) else ParseOperands(next, count + 1))
    ensures ok ==> |next| < |s|
  {
    hide Run, IsSpace, IsAlnum, IsOperandChar, Lower;
    ok, t, next := false, "", "";
    if count >= MAX_TOKENS { return; }
    var _, r := Scan(s, IsSpace);
    var after;
    t, after := Scan(r, IsOperandChar);
    if t == "" { return; }
    var _, last := Scan(after, IsSpace);
    if last != "" && last[0] == ',' {
      if |last| == 1 { return; }
      next := last[1..];
    } else if last != "" && IsOperandChar(last[0]) { return; }
    ok := true;
  }

  method ReadOperands(s: string) returns (tokens: Option<seq<string>>)
    requires s != ""
    ensures tokens == ParseOperands(s, 1)
  {
    hide ParseOperands;
    var read: seq<string> := [];
    var count, rest := 1, s;
    AfterNothing([], "", ParseOperands(s, 1));
    while rest != ""
      invariant ParseOperands(s, 1) == After(read, if rest == "" then Some([]) else ParseOperands(rest, count))
      decreases |rest|
    {
      var ok, t, next := ReadOperand(rest, count);
      if !ok { return None; }
      AfterTwice(read, [t], if next == "" then Some([]) else ParseOperands(next, count + 1));
      count, rest, read := count + 1, next, read + [t];
    }
    AfterNothing(read, "", None);
    tokens := Some(read);
  }

  predicate NotNul(c: char) { c != '\0' }

  /** The string that a character array holds: up to its NUL. */
  function Held(s: seq<char>): string { s[..Run(s, NotNul)] }

  lemma HeldIs(s: seq<char>, n: nat)
    requires n < |s| && s[n] == '\0' && AllOf(s[..n], NotNul)
    ensures Held(s) == s[..n]
  {
    assert s == s[..n] + s[n..];
    Runs(s[..n], s[n..], NotNul);
  }

  lemma HeldBeyond(s: seq<char>, i: nat)
    requires i < |s| && s[i] != '\0' && AllOf(s[..i], NotNul) && '\0' in s
    ensures i < |Held(s)| && Held(s)[..i + 1] == s[..i + 1] && i + 1 < |s|
    ensures s[i + 1] == (if i + 1 < |Held(s)| then Held(s)[i + 1] else '\0')
  {
    RunSplits(s, NotNul);
    assert forall k | 0 <= k < i :: s[..i][k] == s[k] && NotNul(s[k]);
  }

  lemma NoSlash(t: string)
    requires AllOf(t, NotSlash)
    ensures StripComment(t) == Some(t)
  {
    Runs(t, "", NotSlash);
    assert t + "" == t;
  }

  lemma FirstSlash(t: string, i: nat)
    requires i < |t| && t[i] == '/' && AllOf(t[..i], NotSlash)
    ensures StripComment(t) == if i + 1 < |t| && t[i + 1] == '/' then Some(t[..i] + "\n") else None
  {
    Runs(t[..i], t[i..], NotSlash);
    assert t == t[..i] + t[i..];
  }

  /** remove_comments, which cuts the line where a comment starts. */
  method RemoveComments(line: array<char>) returns (ok: bool)
    requires '\0' in line[..]
    modifies line
    ensures ok <==> StripComment(old(Held(line[..]))).Some?
    ensures ok ==> Held(line[..]) == StripComment(old(Held(line[..]))).value
    ensures '\0' in line[..]
  {
    hide Held, StripComment;
    ghost var s := line[..];
    var i := 0;
    while i < line.Length && line[i] != '\0'
      invariant i <= line.Length && line[..] == s && AllOf(s[..i], NotNul) && AllOf(s[..i], NotSlash)
    {
      HeldBeyond(s, i);
      if line[i] == '/' {
        assert Held(s)[..i] == Held(s)[..i + 1][..i] == s[..i] && Held(s)[i] == Held(s)[..i + 1][i];
        FirstSlash(Held(s), i);
        if line[i + 1] != '/' { return false; }
        line[i], line[i + 1] := '\n', '\0';
        assert line[..i + 1] == s[..i] + "\n" && line[..][i + 1] == '\0' && line[..][..i + 1] == line[..i + 1];
        HeldIs(line[..], i + 1);
        return true;
      }
      assert s[..i + 1] == s[..i] + [s[i]];
      i := i + 1;
    }
    HeldIs(s, i);
    NoSlash(s[..i]);
    ok := true;
  }

  /** The line as get_tokens and the white-space test of main.c classify it. */
  method GetTokens(line: array<char>) returns (r: Line)
    requires '\0' in line[..]
    modifies line
    ensures r == LineOf(old(Held(line[..])))
  {
    hide Held, StripComment, ParseLabel, ParseOperation, Compatible;
    var s := Held(line[..]);
    if IsBlank(s) { return Blank; }
    var _, r0 := Scan(s, IsSpace);
    if |r0| > 1 && r0[0] == '/' && r0[1] == '/' { return Comment; }
    var ok := RemoveComments(line);
    if !ok { return Bad; }
    var t := Held(line[..]);
    if !Compatible(t) { return Bad; }
    if ':' in t {
      var name := ReadLabel(t);
      return if name.Some? then Label(name.value) else Bad;
    }
    var tokens := ReadOperation(t);
    r := if tokens.Some? then Op(tokens.value) else Bad;
  }

  function LinesOf(text: seq<string>): (lines: seq<Line>)
    ensures |lines| == |text| && forall k | 0 <= k < |text| :: lines[k] == LineOf(text[k])
  {
    seq(|text|, k requires 0 <= k < |text| => LineOf(text[k]))
  }

  /** Both passes over the text of a program. */
  method AssembleText(text: seq<string>) returns (output: Option<seq<Word>>)
    requires forall k | 0 <= k < |text| :: '\0' !in text[k]
    ensures output == Assembled(LinesOf(text))
  {
    hide LineOf, Held;
    var lines: seq<Line> := [];
    var k := 0;
    while k < |text|
      invariant 0 <= k <= |text| && lines == LinesOf(text)[..k]
    {
      var buffer := new char[|text[k]| + 1](i => if 0 <= i < |text[k]| then text[k][i] else '\0');
      assert buffer[..] == text[k] + ['\0'] && buffer[..][|text[k]|] == '\0';
      assert buffer[..][..|text[k]|] == text[k];
      HeldIs(buffer[..], |text[k]|);
      var line := GetTokens(buffer);
      lines := lines + [line];
      k := k + 1;
    }
    assert lines == LinesOf(text);
    output := Assemble(lines);
  }
}
