/** The numbers of code blocks: no two blocks have the same, and a copy button names the block it stands before. */
module MarkdownIds {
  import opened Text
  import opened MarkdownHtml
  import opened MarkdownNesting

  /** The numbers of the opened elements with the tag, in order. */
  function Ids(ts: seq<Token>, tag: Tag): seq<nat> {
    if ts == [] then []
    else
      var t := ts[|ts| - 1];
      Ids(ts[..|ts| - 1], tag) + (if t.Open? && t.tag == tag then [t.id] else [])
  }

  lemma {:induction false} IdsConcat(a: seq<Token>, b: seq<Token>, tag: Tag)
    ensures Ids(a + b, tag) == Ids(a, tag) + Ids(b, tag)
  {
    if b == [] {
      ConcatNil(a);
    } else {
      var n := |b| - 1;
      IdsConcat(a, b[..n], tag);
      ConcatAssoc(a, b[..n], [b[n]]);
      InitLast(b);
      SnocInit(a + b[..n], b[n]);
      ConcatAssoc(Ids(a, tag), Ids(b[..n], tag), if b[n].Open? && b[n].tag == tag then [b[n].id] else []);
    }
  }

  lemma IdsSnoc(ts: seq<Token>, t: Token, tag: Tag)
    ensures Ids(ts + [t], tag) == Ids(ts, tag) + (if t.Open? && t.tag == tag then [t.id] else [])
  {
    SnocInit(ts, t);
  }

  /** No numbered element is opened. */
  predicate OpensNone(ts: seq<Token>) {
    forall i :: 0 <= i < |ts| && ts[i].Open? ==> ts[i].tag != Code && ts[i].tag != Button
  }

  lemma {:induction false} NoIds(ts: seq<Token>)
    requires forall i :: 0 <= i < |ts| && ts[i].Open? ==> ts[i].tag != Code
    ensures Ids(ts, Code) == []
  {
    if ts != [] {
      NoIds(ts[..|ts| - 1]);
    }
  }

  /** Every copy button is followed by its label, its end, and the code element of the same number. */
  predicate ButtonsMatch(ts: seq<Token>) {
    forall i :: 0 <= i < |ts| && ts[i].Open? && ts[i].tag == Button ==>
      i + 4 < |ts| && ts[i + 4] == Open(Code, ts[i].id)
  }

  lemma ButtonsConcat(a: seq<Token>, b: seq<Token>)
    requires ButtonsMatch(a) && ButtonsMatch(b)
    ensures ButtonsMatch(a + b)
  {
    forall i | 0 <= i < |a + b| && (a + b)[i].Open? && (a + b)[i].tag == Button
      ensures i + 4 < |a + b| && (a + b)[i + 4] == Open(Code, (a + b)[i].id)
    {
      if i < |a| {
        assert (a + b)[i] == a[i] && (a + b)[i + 4] == a[i + 4];
      } else {
        assert (a + b)[i] == b[i - |a|] && (a + b)[i + 4] == b[i - |a| + 4];
      }
    }
  }

  lemma NoneOpened(ts: seq<Token>)
    requires OpensNone(ts)
    ensures Ids(ts, Code) == [] && ButtonsMatch(ts)
  {
    NoIds(ts);
  }

  lemma FenceIds(sql: bool, id: nat)
    ensures Ids(OpenFence(sql, id), Code) == [id]
  {
    hide Ids;
    var button: seq<Token> := [Open(Div, 0), Open(Button, id), Text("Copy"), Close(Button)];
    var pre: seq<Token> := [Open(Pre, 0)] + [Open(Code, id)];
    assert pre == [Open(Pre, 0), Open(Code, id)];
    NoIds([Open(Pre, 0)]);
    IdsSnoc([Open(Pre, 0)], Open(Code, id), Code);
    ConcatNil([id]);
    if sql {
      NoIds(button);
      IdsConcat(button, pre, Code);
    } else {
      assert OpenFence(sql, id) == [] + pre;
      ConcatNil(pre);
    }
  }

  lemma FenceButtons(sql: bool, id: nat)
    ensures ButtonsMatch(OpenFence(sql, id))
  {
    if !sql {
      ConcatNil<Token>([Open(Pre, 0), Open(Code, id)]);
    }
  }

  /** A line opens a block with the next number or none. */
  lemma LineIds(st: State, line: string)
    ensures var r := RenderLine(st, line);
            && ButtonsMatch(r.out)
            && Ids(r.out, Code) == (if !st.inCode && IsFence(Trim(line)) then [st.blockId + 1] else [])
            && r.st.blockId == st.blockId + |Ids(r.out, Code)|
            && r.st.inCode == (st.inCode != IsFence(Trim(line)))
  {
    hide Trim, IsFence, IsSqlFence, EscapeHTML, RenderBlock, Closing, OpenFence, Ids, ButtonsMatch;
    var trimmed := Trim(line);
    if IsFence(trimmed) {
      FenceIds(IsSqlFence(trimmed), st.blockId + 1);
      FenceButtons(IsSqlFence(trimmed), st.blockId + 1);
      NoneOpened(CLOSE_CODE);
    } else if st.inCode {
      NoneOpened([Text(EscapeHTML(line)), Newline]);
    } else {
      BlockLineIsSimple(st, line);
      NoneOpened(RenderLine(st, line).out);
      KeepsCode(st, trimmed);
      KeepsCode(Closing(st, trimmed).st, trimmed);
    }
  }

  /** The numbers 1 to n. */
  function Numbers(n: nat): (ids: seq<nat>)
    ensures |ids| == n && forall i :: 0 <= i < n ==> ids[i] == i + 1
  {
    seq(n, i => i + 1)
  }

  /** The fence lines that open a block: every other one, from the first. */
  function OpeningFences(lines: seq<string>): nat {
    (Fences(lines) + 1) / 2
  }

  lemma {:induction false} LinesIds(lines: seq<string>)
    ensures var r := RenderLines(lines);
            && ButtonsMatch(r.out)
            && Ids(r.out, Code) == Numbers(r.st.blockId)
            && r.st.blockId == OpeningFences(lines)
            && (r.st.inCode <==> Fences(lines) % 2 == 1)
  {
    hide Trim, RenderLine, IsFence, Ids, ButtonsMatch;
    if lines == [] {
      NoneOpened([]);
    } else {
      var before, line := RenderLines(lines[..|lines| - 1]), lines[|lines| - 1];
      LinesIds(lines[..|lines| - 1]);
      LineIds(before.st, line);
      var out := RenderLine(before.st, line).out;
      IdsConcat(before.out, out, Code);
      ButtonsConcat(before.out, out);
      assert Ids(out, Code) == [] ==> Numbers(before.st.blockId) + Ids(out, Code) == Numbers(before.st.blockId);
    }
  }

  lemma FinishOpensNone(st: State)
    ensures OpensNone(Finish(st))
  {
  }

  /** In every document the code blocks are numbered from 1 on, so no two have the same number, one for each fence
      that opens a block; and every copy button names the block directly behind it. */
  lemma BlocksAreNumbered(md: string)
    ensures Ids(Render(md), Code) == Numbers(OpeningFences(Split(md, '\n')))
    ensures ButtonsMatch(Render(md))
  {
    hide Split, RenderLines, Finish, Ids, ButtonsMatch, OpeningFences;
    var r := RenderLines(Split(md, '\n'));
    LinesIds(Split(md, '\n'));
    FinishOpensNone(r.st);
    NoneOpened(Finish(r.st));
    IdsConcat(r.out, Finish(r.st), Code);
    ButtonsConcat(r.out, Finish(r.st));
    ConcatNil(Ids(r.out, Code));
  }
}
