/**
 The voice platform's side of two-stage prompts: replacing placeholders in a text.

 The theory is stated for any five marks written as a name in double braces; Prompts.dfy uses it with the
 placeholders of backend/app/services/prompts.py.
*/
module PromptText {

  import opened Options

  datatype Var = CallerContext | MemoryContext | TemperamentBlock | SwearingBlock | TimeLimitBlock

  /** A text for each variable: the marks that stand for it, or the values that replace them. */
  datatype Texts = Texts(
    callerContext: string, memoryContext: string, temperament: string, swearing: string, timeLimit: string)
  {
    function Of(v: Var): string {
      match v
      case CallerContext => callerContext
      case MemoryContext => memoryContext
      case TemperamentBlock => temperament
      case SwearingBlock => swearing
      case TimeLimitBlock => timeLimit
    }
  }

  predicate NameChar(c: char) {
    'a' <= c <= 'z' || c == '_'
  }

  predicate MarkChar(c: char) {
    NameChar(c) || c == '{' || c == '}'
  }

  /** Two opening braces, a name, two closing braces. */
  ghost predicate Braced(p: string) {
    && |p| >= 6 && p[0] == '{' && p[1] == '{' && p[|p| - 1] == '}'
    && (forall i :: 2 <= i < |p| ==> p[i] != '{')
    && (forall i :: 0 <= i < |p| ==> MarkChar(p[i]))
  }

  /** Marks are braced and told apart by the first two letters of their names. */
  ghost predicate WellMarked(marks: Texts) {
    && (forall v :: Braced(marks.Of(v)))
    && (forall v, w :: v != w ==> marks.Of(v)[2] != marks.Of(w)[2] || marks.Of(v)[3] != marks.Of(w)[3])
  }

  function MarkAt(s: string, marks: Texts): (r: Option<Var>)
    ensures r.Some? ==> marks.Of(r.value) <= s
    ensures r.None? ==> forall v :: !(marks.Of(v) <= s)
  {
    if marks.callerContext <= s then Some(CallerContext)
    else if marks.memoryContext <= s then Some(MemoryContext)
    else if marks.temperament <= s then Some(TemperamentBlock)
    else if marks.swearing <= s then Some(SwearingBlock)
    else if marks.timeLimit <= s then Some(TimeLimitBlock)
    else None
  }

  /** One left-to-right pass; inserted values are not scanned again. */
  function Substitute(s: string, marks: Texts, vals: Texts): string
    decreases |s|
  {
    if s == "" then ""
    else
      var found := MarkAt(s, marks);
      if found.Some? && marks.Of(found.value) != "" then
        vals.Of(found.value) + Substitute(s[|marks.Of(found.value)|..], marks, vals)
      else
        [s[0]] + Substitute(s[1..], marks, vals)
  }

  // ---------------------------------------------------------------------------------------------
  // Finding marks
  // ---------------------------------------------------------------------------------------------

  lemma FoundAtStart(v: Var, rest: string, marks: Texts)
    requires WellMarked(marks)
    ensures MarkAt(marks.Of(v) + rest, marks) == Some(v)
  {
    var s := marks.Of(v) + rest;
    assert marks.Of(v) <= s;
    assert s[2] == marks.Of(v)[2] && s[3] == marks.Of(v)[3];
    forall w | w != v
      ensures !(marks.Of(w) <= s)
    {
      assert marks.Of(w)[2] != s[2] || marks.Of(w)[3] != s[3];
    }
  }

  /** No mark occurs in s. */
  ghost predicate Clean(s: string, marks: Texts) {
    forall v, i :: 0 <= i <= |s| ==> !(marks.Of(v) <= s[i..])
  }

  lemma CleanTail(s: string, marks: Texts)
    requires Clean(s, marks) && s != ""
    ensures Clean(s[1..], marks)
  {
    forall v, i | 0 <= i <= |s[1..]|
      ensures !(marks.Of(v) <= s[1..][i..])
    {
      assert s[1..][i..] == s[i + 1..];
    }
  }

  /** Text in front of a braced mark cannot form another one with its braces. */
  lemma NoStraddle(r: string, p: string, mark: string, rest: string)
    requires Braced(p) && Braced(mark) && r != "" && !(p <= r)
    ensures !(p <= r + mark + rest)
  {
    var s := r + mark + rest;
    if |p| <= |r| {
      assert s[..|p|] == r[..|p|];
    } else {
      var k := if |r| == 1 then 2 else |r|;
      assert s[k] == mark[k - |r|];
      assert s[k] == '{' && p[k] != '{';
    }
  }

  lemma NothingFoundInFront(r: string, v: Var, rest: string, marks: Texts)
    requires WellMarked(marks) && Clean(r, marks) && r != ""
    ensures MarkAt(r + marks.Of(v) + rest, marks) == None
  {
    assert r[0..] == r;
    forall w
      ensures !(marks.Of(w) <= r + marks.Of(v) + rest)
    {
      NoStraddle(r, marks.Of(w), marks.Of(v), rest);
    }
  }

  lemma Reassociate(r: string, a: string, b: string)
    requires r != ""
    ensures r + a + b != "" && (r + a + b)[0] == r[0] && (r + a + b)[1..] == r[1..] + a + b
    ensures [r[0]] + (r[1..] + a + b) == r + a + b
  {
  }

  lemma SubstituteSkips(s: string, marks: Texts, vals: Texts)
    requires s != "" && MarkAt(s, marks) == None
    ensures Substitute(s, marks, vals) == [s[0]] + Substitute(s[1..], marks, vals)
  {
  }

  lemma SubstituteReplaces(s: string, v: Var, tail: string, marks: Texts, vals: Texts)
    requires MarkAt(s, marks) == Some(v) && marks.Of(v) != "" && s[|marks.Of(v)|..] == tail
    ensures Substitute(s, marks, vals) == vals.Of(v) + Substitute(tail, marks, vals)
  {
  }

  lemma SubstituteAtMark(v: Var, rest: string, marks: Texts, vals: Texts)
    requires WellMarked(marks)
    ensures Substitute(marks.Of(v) + rest, marks, vals) == vals.Of(v) + Substitute(rest, marks, vals)
  {
    FoundAtStart(v, rest, marks);
    var mark := marks.Of(v);
    assert (mark + rest)[|mark|..] == rest;
    SubstituteReplaces(mark + rest, v, rest, marks, vals);
  }

  lemma SubstituteOneMore(r: string, mark: string, rest: string, value: string, out: string, marks: Texts, vals: Texts)
    requires r != "" && MarkAt(r + mark + rest, marks) == None
    requires Substitute(r[1..] + mark + rest, marks, vals) == r[1..] + value + out
    ensures Substitute(r + mark + rest, marks, vals) == r + value + out
  {
    var s := r + mark + rest;
    Reassociate(r, mark, rest);
    SubstituteSkips(s, marks, vals);
    Reassociate(r, value, out);
  }

  /** `out` is what the rest becomes. */
  lemma {:induction false} SubstituteAfterClean(r: string, v: Var, rest: string, out: string, marks: Texts, vals: Texts)
    requires WellMarked(marks) && Clean(r, marks) && Substitute(rest, marks, vals) == out
    ensures Substitute(r + marks.Of(v) + rest, marks, vals) == r + vals.Of(v) + out
    decreases |r|
  {
    if r == "" {
      var mark, value := marks.Of(v), vals.Of(v);
      assert r + mark + rest == mark + rest && r + value + out == value + out;
      SubstituteAtMark(v, rest, marks, vals);
    } else {
      NothingFoundInFront(r, v, rest, marks);
      CleanTail(r, marks);
      SubstituteAfterClean(r[1..], v, rest, out, marks, vals);
      SubstituteOneMore(r, marks.Of(v), rest, vals.Of(v), out, marks, vals);
    }
  }

  lemma {:induction false} SubstituteClean(r: string, marks: Texts, vals: Texts)
    requires Clean(r, marks)
    ensures Substitute(r, marks, vals) == r
    decreases |r|
  {
    if r != "" {
      assert r[0..] == r;
      CleanTail(r, marks);
      SubstituteClean(r[1..], marks, vals);
    }
  }

  // ---------------------------------------------------------------------------------------------
  // Texts in pieces
  // ---------------------------------------------------------------------------------------------

  /** Wording of the source, text that comes from users or data, and the slots filled per call. */
  datatype Piece = Fixed(text: string) | Inserted(text: string) | Dynamic(v: Var)

  /** Wording has no braces and something no mark contains, such as a space or a line break. */
  ghost predicate Plain(s: string) {
    && (forall i :: 0 <= i < |s| ==> s[i] != '{' && s[i] != '}')
    && (exists i :: 0 <= i < |s| && !MarkChar(s[i]))
  }

  /** Wording is plain and stands between any two inserted texts; each inserted text alone is free of marks. */
  ghost predicate Separated(ps: seq<Piece>, marks: Texts) {
    && (forall i :: 0 <= i < |ps| && ps[i].Fixed? ==> Plain(ps[i].text))
    && (forall i :: 0 <= i < |ps| && ps[i].Inserted? ==> Clean(ps[i].text, marks))
    && (forall i :: 0 <= i < |ps| - 1 && ps[i].Inserted? ==> !ps[i + 1].Inserted?)
  }

  function Rendered(ps: seq<Piece>, fill: Texts): string {
    if ps == [] then ""
    else (if ps[0].Dynamic? then fill.Of(ps[0].v) else ps[0].text) + Rendered(ps[1..], fill)
  }

  ghost predicate Static(ps: seq<Piece>) {
    forall i :: 0 <= i < |ps| ==> !ps[i].Dynamic?
  }

  lemma SeparatedTail(ps: seq<Piece>, marks: Texts)
    requires Separated(ps, marks) && ps != []
    ensures Separated(ps[1..], marks)
  {
    var rest := ps[1..];
    assert forall i :: 0 <= i < |rest| ==> rest[i] == ps[i + 1];
  }

  lemma CleanAfterFixed(f: string, rest: string, marks: Texts)
    requires WellMarked(marks) && Plain(f) && Clean(rest, marks)
    ensures Clean(f + rest, marks)
  {
    var s := f + rest;
    forall v, i | 0 <= i <= |s|
      ensures !(marks.Of(v) <= s[i..])
    {
      if |f| <= i {
        assert s[i..] == rest[i - |f|..];
      } else {
        assert s[i..][0] == f[i];
      }
    }
  }

  /** An occurrence that leaves an inserted text would have to swallow the wording after it. */
  lemma NoOccurrenceAcrossWording(p: string, t: string, f: string, rest: string, i: nat)
    requires Braced(p) && Plain(f) && i < |t| && !(p <= t[i..])
    ensures !(p <= (t + (f + rest))[i..])
  {
    var s := (t + (f + rest))[i..];
    if |p| <= |s| {
      if i + |p| <= |t| {
        assert t[i..] == s[..|t| - i];
      } else if i + |p| <= |t| + |f| {
        assert s[|p| - 1] == f[i + |p| - 1 - |t|];
      } else {
        var q :| 0 <= q < |f| && !MarkChar(f[q]);
        assert s[|t| + q - i] == f[q];
      }
    }
  }

  lemma CleanAfterInserted(t: string, f: string, rest: string, marks: Texts)
    requires WellMarked(marks) && Clean(t, marks) && Plain(f) && Clean(f + rest, marks)
    ensures Clean(t + (f + rest), marks)
  {
    var s := t + (f + rest);
    forall v, i | 0 <= i <= |s|
      ensures !(marks.Of(v) <= s[i..])
    {
      if |t| <= i {
        assert s[i..] == (f + rest)[i - |t|..];
      } else {
        NoOccurrenceAcrossWording(marks.Of(v), t, f, rest, i);
      }
    }
  }

  lemma {:induction false} StaticTextIsClean(ps: seq<Piece>, marks: Texts, fill: Texts)
    requires WellMarked(marks) && Static(ps) && Separated(ps, marks)
    ensures Clean(Rendered(ps, fill), marks)
    decreases |ps|
  {
    if ps != [] {
      SeparatedTail(ps, marks);
      StaticTextIsClean(ps[1..], marks, fill);
      var rest := Rendered(ps[1..], fill);
      if ps[0].Fixed? {
        CleanAfterFixed(ps[0].text, rest, marks);
      } else if |ps| == 1 {
        assert ps[0].text + "" == ps[0].text;
      } else {
        assert ps[1].Fixed?;
        assert rest == ps[1].text + Rendered(ps[1..][1..], fill);
        CleanAfterInserted(ps[0].text, ps[1].text, Rendered(ps[1..][1..], fill), marks);
      }
    }
  }

  lemma {:induction false} RenderedAppend(xs: seq<Piece>, ys: seq<Piece>, fill: Texts)
    ensures Rendered(xs + ys, fill) == Rendered(xs, fill) + Rendered(ys, fill)
    decreases |xs|
  {
    if xs == [] {
      assert xs + ys == ys;
    } else {
      assert (xs + ys)[1..] == xs[1..] + ys;
      RenderedAppend(xs[1..], ys, fill);
      var head := if xs[0].Dynamic? then fill.Of(xs[0].v) else xs[0].text;
      assert head + (Rendered(xs[1..], fill) + Rendered(ys, fill)) == (head + Rendered(xs[1..], fill)) + Rendered(ys, fill);
    }
  }

  lemma {:induction false} StaticIgnoresFill(ps: seq<Piece>, a: Texts, b: Texts)
    requires Static(ps)
    ensures Rendered(ps, a) == Rendered(ps, b)
    decreases |ps|
  {
    if ps != [] {
      StaticIgnoresFill(ps[1..], a, b);
    }
  }

  lemma RenderedSplit(before: seq<Piece>, slot: Piece, rest: seq<Piece>, fill: Texts)
    requires slot.Dynamic?
    ensures Rendered(before + [slot] + rest, fill) == Rendered(before, fill) + fill.Of(slot.v) + Rendered(rest, fill)
  {
    RenderedAppend(before + [slot], rest, fill);
    RenderedAppend(before, [slot], fill);
    assert [slot][1..] == [];
    assert Rendered([slot], fill) == fill.Of(slot.v) + "";
    assert fill.Of(slot.v) + "" == fill.Of(slot.v);
  }

  lemma SubstituteAcrossSlot(before: seq<Piece>, slot: Piece, rest: seq<Piece>, marks: Texts, vals: Texts)
    requires WellMarked(marks) && Static(before) && Separated(before, marks) && slot.Dynamic?
    requires Substitute(Rendered(rest, marks), marks, vals) == Rendered(rest, vals)
    ensures Substitute(Rendered(before + [slot] + rest, marks), marks, vals) == Rendered(before + [slot] + rest, vals)
  {
    StaticTextIsClean(before, marks, marks);
    StaticIgnoresFill(before, marks, vals);
    RenderedSplit(before, slot, rest, marks);
    RenderedSplit(before, slot, rest, vals);
    SubstituteAfterClean(Rendered(before, marks), slot.v, Rendered(rest, marks), Rendered(rest, vals), marks, vals);
  }

  /** `before` is the static part in front of the first slot of `ps`. */
  lemma {:induction false} SubstituteRenderedFrom(before: seq<Piece>, ps: seq<Piece>, marks: Texts, vals: Texts)
    requires WellMarked(marks) && Static(before) && Separated(before + ps, marks)
    ensures Substitute(Rendered(before + ps, marks), marks, vals) == Rendered(before + ps, vals)
    decreases |ps|
  {
    var all := before + ps;
    if ps == [] {
      assert all == before;
      StaticTextIsClean(before, marks, marks);
      SubstituteClean(Rendered(before, marks), marks, vals);
      StaticIgnoresFill(before, marks, vals);
    } else if ps[0].Dynamic? {
      var rest := ps[1..];
      assert all == before + [ps[0]] + rest;
      assert Separated(before, marks) by {
        assert forall i :: 0 <= i < |before| ==> before[i] == all[i];
      }
      assert Separated(rest, marks) by {
        assert forall i :: 0 <= i < |rest| ==> rest[i] == all[i + |before| + 1];
      }
      assert [] + rest == rest;
      SubstituteRenderedFrom([], rest, marks, vals);
      SubstituteAcrossSlot(before, ps[0], rest, marks, vals);
    } else {
      assert before + [ps[0]] + ps[1..] == all;
      SubstituteRenderedFrom(before + [ps[0]], ps[1..], marks, vals);
    }
  }

  /** Substituting the values into the text rendered with marks gives the text rendered with the values. */
  lemma SubstituteRendered(ps: seq<Piece>, marks: Texts, vals: Texts)
    requires WellMarked(marks) && Separated(ps, marks)
    ensures Substitute(Rendered(ps, marks), marks, vals) == Rendered(ps, vals)
  {
    assert [] + ps == ps;
    SubstituteRenderedFrom([], ps, marks, vals);
  }
}
