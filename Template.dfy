/** The SMS text: the one-time code filled into the caller's message template
    (`_render_message` in telephony_hook/__init__.py). */
module Template {
  import opened Wrappers

  const DollarPlaceholder: string := "${otpCode}"
  const DoubleBracePlaceholder: string := "{{otpCode}}"
  const SingleBracePlaceholder: string := "{otpCode}"
  const FallbackPrefix: string := "Your verification code is "

  /** `s` begins with `p`. */
  predicate StartsWith(s: string, p: string) {
    |p| <= |s| && s[..|p|] == p
  }

  /** `p` occurs somewhere in `s`. */
  predicate Contains(s: string, p: string)
    decreases |s|
  {
    StartsWith(s, p) || (|s| > 0 && Contains(s[1..], p))
  }

  /** The number of occurrences of `p` that a left-to-right scan finds without overlap. */
  function Count(s: string, p: string): nat
    requires |p| > 0
    decreases |s|
  {
    if |s| < |p| then 0
    else if s[..|p|] == p then 1 + Count(s[|p|..], p)
    else Count(s[1..], p)
  }

  /** Python's `s.replace(p, r)`: scanning from the left, every occurrence of `p` that does
      not overlap an earlier one is replaced by `r`. A text without `p` comes back unchanged. */
  function ReplaceAll(s: string, p: string, r: string): (out: string)
    requires |p| > 0
    ensures !Contains(s, p) ==> out == s
    decreases |s|
  {
    if |s| < |p| then s
    else if s[..|p|] == p then r + ReplaceAll(s[|p|..], p, r)
    else [s[0]] + ReplaceAll(s[1..], p, r)
  }

  /** `_render_message`: an absent or empty template gives the fixed fallback text;
      otherwise the three placeholder spellings are replaced by the code, `${otpCode}`
      first, then `{{otpCode}}`, then `{otpCode}`. */
  function RenderMessage(template: Option<string>, code: string): (r: string)
    ensures template.None? || template.value == [] ==> r == FallbackPrefix + code
  {
    if template.None? || template.value == [] then FallbackPrefix + code
    else
      var out := ReplaceAll(template.value, DollarPlaceholder, code);
      var out := ReplaceAll(out, DoubleBracePlaceholder, code);
      ReplaceAll(out, SingleBracePlaceholder, code)
  }

  // ---------------------------------------------------------------------------
  // Length

  lemma Distribute(k: int, d: int)
    ensures (1 + k) * d == d + k * d
  {
  }

  /** Each replacement changes the length by the difference of the two lengths. */
  lemma {:induction false} ReplaceAllLength(s: string, p: string, r: string)
    requires |p| > 0
    ensures |ReplaceAll(s, p, r)| == |s| + Count(s, p) * (|r| - |p|)
    decreases |s|
  {
    if |s| < |p| {
    } else if s[..|p|] == p {
      var rest := s[|p|..];
      ReplaceAllLength(rest, p, r);
      var k, d := Count(rest, p), |r| - |p|;
      assert ReplaceAll(s, p, r) == r + ReplaceAll(rest, p, r);
      assert Count(s, p) == 1 + k;
      Distribute(k, d);
    } else {
      ReplaceAllLength(s[1..], p, r);
    }
  }

  // ---------------------------------------------------------------------------
  // Templates without a placeholder

  lemma {:induction false} ContainsAppend(a: string, b: string, q: string)
    requires Contains(a, q)
    ensures Contains(a + b, q)
    decreases |a|
  {
    if StartsWith(a, q) {
      assert (a + b)[..|q|] == a[..|q|];
    } else {
      ContainsAppend(a[1..], b, q);
      assert (a + b)[1..] == a[1..] + b;
    }
  }

  /** Occurrence is transitive: if `q` occurs in `p` and `p` occurs in `s`, `q` occurs in `s`. */
  lemma {:induction false} ContainsTransitive(s: string, p: string, q: string)
    requires Contains(s, p) && Contains(p, q)
    ensures Contains(s, q)
    decreases |s|
  {
    if StartsWith(s, p) {
      ContainsAppend(p, s[|p|..], q);
      assert p + s[|p|..] == s;
    } else {
      ContainsTransitive(s[1..], p, q);
    }
  }

  lemma SingleBraceInPlaceholders()
    ensures Contains(DollarPlaceholder, SingleBracePlaceholder)
    ensures Contains(DoubleBracePlaceholder, SingleBracePlaceholder)
  {
    assert StartsWith(DollarPlaceholder[1..], SingleBracePlaceholder);
    assert StartsWith(DoubleBracePlaceholder[1..], SingleBracePlaceholder);
  }

  /** Every placeholder spelling contains `{otpCode}`, so a non-empty template without
      `{otpCode}` is sent exactly as written. */
  lemma NoPlaceholderUnchanged(template: string, code: string)
    requires template != [] && !Contains(template, SingleBracePlaceholder)
    ensures RenderMessage(Some(template), code) == template
  {
    SingleBraceInPlaceholders();
    if Contains(template, DollarPlaceholder) {
      ContainsTransitive(template, DollarPlaceholder, SingleBracePlaceholder);
    }
    if Contains(template, DoubleBracePlaceholder) {
      ContainsTransitive(template, DoubleBracePlaceholder, SingleBracePlaceholder);
    }
  }

  // ---------------------------------------------------------------------------
  // What the renderer means: templates as text and placeholders

  /** The three placeholder spellings the renderer recognises. */
  datatype Spelling = DollarForm | DoubleBraceForm | SingleBraceForm

  function Placeholder(f: Spelling): (p: string)
    ensures |p| > 0
  {
    match f
    case DollarForm => DollarPlaceholder
    case DoubleBraceForm => DoubleBracePlaceholder
    case SingleBraceForm => SingleBracePlaceholder
  }

  /** A template read as a sequence of pieces: literal text and placeholders. */
  datatype Piece = Text(text: string) | Slot(form: Spelling)

  function PieceText(pc: Piece): string {
    match pc
    case Text(t) => t
    case Slot(f) => Placeholder(f)
  }

  /** The template text the pieces spell. */
  function Flatten(ps: seq<Piece>): string {
    if ps == [] then [] else PieceText(ps[0]) + Flatten(ps[1..])
  }

  /** The intended message: the literal text with every placeholder, whatever its
      spelling, standing for the code. */
  function Fill(ps: seq<Piece>, code: string): string {
    if ps == [] then []
    else (if ps[0].Slot? then code else ps[0].text) + Fill(ps[1..], code)
  }

  /** Literal text that no placeholder can start in: it has no `$` and no `{`. */
  predicate Literal(t: string) {
    '$' !in t && '{' !in t
  }

  /** The pieces after the replacement pass for one spelling: its slots become the code. */
  function FillForm(ps: seq<Piece>, f: Spelling, code: string): (qs: seq<Piece>)
    ensures |qs| == |ps|
    ensures forall i :: 0 <= i < |ps| ==> qs[i] == if ps[i] == Slot(f) then Text(code) else ps[i]
  {
    seq(|ps|, i requires 0 <= i < |ps| => if ps[i] == Slot(f) then Text(code) else ps[i])
  }

  /** A placeholder of spelling `g` comes through the pass for spelling `f` untouched. */
  predicate Survives(g: Spelling, f: Spelling) {
    f == DollarForm || (f == DoubleBraceForm && g == SingleBraceForm)
  }

  /** A piece the pass for `f` handles piece by piece: text in which no occurrence of the
      placeholder can start, the placeholder itself, or a placeholder that survives. */
  predicate ReadyFor(pc: Piece, f: Spelling) {
    match pc
    case Text(t) => Placeholder(f)[0] !in t
    case Slot(g) => g == f || Survives(g, f)
  }

  lemma {:induction false} SkipFree(x: string, y: string, p: string, r: string)
    requires |p| > 0 && p[0] !in x
    ensures ReplaceAll(x + y, p, r) == x + ReplaceAll(y, p, r)
    decreases |x|
  {
    if x == [] {
      assert x + y == y;
    } else {
      var s := x + y;
      if |s| >= |p| {
        assert s[0] == x[0];
        assert s[1..] == x[1..] + y;
        SkipFree(x[1..], y, p, r);
      }
    }
  }

  lemma SkipMatch(y: string, p: string, r: string)
    requires |p| > 0
    ensures ReplaceAll(p + y, p, r) == r + ReplaceAll(y, p, r)
  {
    var s := p + y;
    assert s[..|p|] == p;
    assert s[|p|..] == y;
  }

  /** `{otpCode}` is not touched by the pass for `{{otpCode}}`: its second character is not `{`. */
  lemma SingleUnderDouble(y: string, r: string)
    ensures ReplaceAll(SingleBracePlaceholder + y, DoubleBracePlaceholder, r)
         == SingleBracePlaceholder + ReplaceAll(y, DoubleBracePlaceholder, r)
  {
    var s := SingleBracePlaceholder + y;
    var tail := SingleBracePlaceholder[1..];
    assert '{' !in tail;
    SkipFree(tail, y, DoubleBracePlaceholder, r);
    if |s| >= |DoubleBracePlaceholder| {
      assert s[1] != DoubleBracePlaceholder[1];
      assert s[..|DoubleBracePlaceholder|] != DoubleBracePlaceholder;
      assert s[1..] == tail + y;
    }
  }

  lemma PieceStep(pc: Piece, f: Spelling, y: string, code: string)
    requires ReadyFor(pc, f)
    ensures ReplaceAll(PieceText(pc) + y, Placeholder(f), code)
         == PieceText(if pc == Slot(f) then Text(code) else pc) + ReplaceAll(y, Placeholder(f), code)
  {
    var p := Placeholder(f);
    match pc
    case Text(t) =>
      SkipFree(t, y, p, code);
    case Slot(g) =>
      if g == f {
        SkipMatch(y, p, code);
      } else if f == DollarForm {
        assert '$' !in Placeholder(g);
        SkipFree(Placeholder(g), y, p, code);
      } else {
        SingleUnderDouble(y, code);
      }
  }

  /** One replacement pass replaces exactly the slots of its spelling. */
  lemma {:induction false} Pass(ps: seq<Piece>, f: Spelling, code: string)
    requires forall i :: 0 <= i < |ps| ==> ReadyFor(ps[i], f)
    ensures ReplaceAll(Flatten(ps), Placeholder(f), code) == Flatten(FillForm(ps, f, code))
  {
    var qs := FillForm(ps, f, code);
    if ps != [] {
      Pass(ps[1..], f, code);
      assert qs[1..] == FillForm(ps[1..], f, code);
      PieceStep(ps[0], f, Flatten(ps[1..]), code);
    }
  }

  /** After all three passes every slot holds the code. */
  lemma {:induction false} FlattenFilled(ps: seq<Piece>, qs: seq<Piece>, code: string)
    requires |qs| == |ps|
    requires forall i :: 0 <= i < |ps| ==> qs[i] == if ps[i].Slot? then Text(code) else ps[i]
    ensures Flatten(qs) == Fill(ps, code)
  {
    if ps != [] {
      FlattenFilled(ps[1..], qs[1..], code);
    }
  }

  lemma ReadyForDollarPass(ps: seq<Piece>)
    requires forall i :: 0 <= i < |ps| ==> ps[i].Text? ==> Literal(ps[i].text)
    ensures forall i :: 0 <= i < |ps| ==> ReadyFor(ps[i], DollarForm)
  {
  }

  lemma ReadyForDoubleBracePass(ps: seq<Piece>, code: string)
    requires forall i :: 0 <= i < |ps| ==> ps[i].Text? ==> Literal(ps[i].text)
    requires '{' !in code
    ensures forall i :: 0 <= i < |ps| ==> ReadyFor(FillForm(ps, DollarForm, code)[i], DoubleBraceForm)
  {
  }

  lemma ReadyForSingleBracePass(ps: seq<Piece>, code: string)
    requires forall i :: 0 <= i < |ps| ==> ps[i].Text? ==> Literal(ps[i].text)
    requires '{' !in code
    ensures var ps2 := FillForm(FillForm(ps, DollarForm, code), DoubleBraceForm, code);
      forall i :: 0 <= i < |ps2| ==> ReadyFor(ps2[i], SingleBraceForm)
  {
  }

  lemma RenderIsThreePasses(t: string, code: string)
    requires t != []
    ensures RenderMessage(Some(t), code)
         == ReplaceAll(ReplaceAll(ReplaceAll(t, DollarPlaceholder, code), DoubleBracePlaceholder, code),
                       SingleBracePlaceholder, code)
  {
  }

  /** For a template made of literal text (no `$`, no `{`) and placeholders of any of the
      three spellings, and a code without `{`, the renderer puts the code in place of every
      placeholder and changes nothing else. */
  lemma RenderFillsPlaceholders(ps: seq<Piece>, code: string)
    requires forall i :: 0 <= i < |ps| ==> ps[i].Text? ==> Literal(ps[i].text)
    requires '{' !in code
    requires Flatten(ps) != []
    ensures RenderMessage(Some(Flatten(ps)), code) == Fill(ps, code)
  {
    var ps1 := FillForm(ps, DollarForm, code);
    var ps2 := FillForm(ps1, DoubleBraceForm, code);
    var ps3 := FillForm(ps2, SingleBraceForm, code);
    ReadyForDollarPass(ps);
    Pass(ps, DollarForm, code);
    ReadyForDoubleBracePass(ps, code);
    Pass(ps1, DoubleBraceForm, code);
    ReadyForSingleBracePass(ps, code);
    Pass(ps2, SingleBraceForm, code);
    FlattenFilled(ps, ps3, code);
    RenderIsThreePasses(Flatten(ps), code);
  }

  /** A `${otpCode}` after literal text becomes the code with no stray `$`: the `$` form is
      replaced first. With "Code: " and "123456" this gives "Code: 123456". */
  lemma DollarFormFirst(prefix: string, code: string)
    requires Literal(prefix) && '{' !in code
    ensures RenderMessage(Some(prefix + DollarPlaceholder), code) == prefix + code
  {
    var ps := [Text(prefix), Slot(DollarForm)];
    assert ps[1..] == [Slot(DollarForm)] && ps[1..][1..] == [];
    assert Flatten(ps[1..]) == DollarPlaceholder + Flatten([]);
    assert Flatten(ps) == prefix + Flatten(ps[1..]);
    assert DollarPlaceholder + [] == DollarPlaceholder;
    RenderFillsPlaceholders(ps, code);
    assert Fill(ps[1..], code) == code + Fill([], code);
    assert Fill(ps, code) == prefix + Fill(ps[1..], code);
    assert code + [] == code;
  }

  /** Replacing `{otpCode}` first would have left the `$` of `${otpCode}` in the message,
      so the fixed order matters. */
  lemma SingleBraceFirstLeavesDollar(prefix: string, code: string)
    requires '{' !in prefix
    ensures ReplaceAll(prefix + DollarPlaceholder, SingleBracePlaceholder, code) == prefix + "$" + code
  {
    var x, p := prefix + "$", SingleBracePlaceholder;
    calc {
      ReplaceAll(prefix + DollarPlaceholder, p, code);
      { assert prefix + DollarPlaceholder == x + p; }
      ReplaceAll(x + p, p, code);
      { SkipFree(x, p, p, code); }
      x + ReplaceAll(p, p, code);
      { SkipMatch([], p, code); assert p + [] == p; }
      x + code;
    }
  }

  /** `"{{otpCode}}-{otpCode}"` gives the code, a dash, and the code: "9-9" for "9". */
  lemma MixedBraceForms(code: string)
    requires '{' !in code
    ensures RenderMessage(Some(DoubleBracePlaceholder + "-" + SingleBracePlaceholder), code) == code + "-" + code
  {
    var ps := [Slot(DoubleBraceForm), Text("-"), Slot(SingleBraceForm)];
    assert ps[1..] == [Text("-"), Slot(SingleBraceForm)];
    assert ps[1..][1..] == [Slot(SingleBraceForm)] && ps[1..][1..][1..] == [];
    assert SingleBracePlaceholder + [] == SingleBracePlaceholder;
    assert Flatten(ps[1..][1..]) == SingleBracePlaceholder + Flatten([]);
    assert Flatten(ps[1..]) == "-" + Flatten(ps[1..][1..]);
    assert Flatten(ps) == DoubleBracePlaceholder + Flatten(ps[1..]);
    assert Flatten(ps) == DoubleBracePlaceholder + "-" + SingleBracePlaceholder;
    RenderFillsPlaceholders(ps, code);
    assert code + [] == code;
    assert Fill(ps[1..][1..], code) == code + Fill([], code);
    assert Fill(ps[1..], code) == "-" + Fill(ps[1..][1..], code);
    assert Fill(ps, code) == code + Fill(ps[1..], code);
  }

  /** An absent or empty template with `"42"` gives `"Your verification code is 42"`. */
  lemma FallbackExample()
    ensures RenderMessage(None, "42") == "Your verification code is 42"
    ensures RenderMessage(Some(""), "42") == "Your verification code is 42"
  {
  }
}
