/**
  Reference model of one translation session of the JSP translator: the three
  text regions with their provenance lists, the current tag handler, the effect
  of each parser callback, and the assembled Java unit with its source map.
  The class in module JspTranslation is proved to follow this model.
*/
module JspSession {
  import opened Wrappers
  import opened Strings
  import opened Splitting

  /** One physical line: text without a line break. */
  type Line = s: string | '\n' !in s witness ""

  /** A tag handler, known only by identity; its behaviour is supplied from outside. */
  datatype Handler = Handler(id: nat)

  /** The tag handler factory: lookup by tag name, and by the shape of an original line. */
  datatype Factory = Factory(getHandler: string -> Option<Handler>, findHandler: string -> Option<Handler>)

  datatype Region = Declarations | LocalDeclarations | Content

  /** One append a tag handler makes through the result collector. */
  datatype Emission = Emission(region: Region, text: Line, sourceLine: int)

  /** What the current handler's processEndTag does: the lines it appends, and
      whether it then throws an IOException. */
  datatype Production = Production(emissions: seq<Emission>, throwsIOException: bool)

  /** The callbacks the JSP parser makes, in document order. */
  datatype Event =
    | StartTag(isEndTag: bool, name: string)
    | TagAttribute(attrName: string, value: string, line: int)
    | EndTag(selfClosing: bool, production: Production, line: int)
    | Java(ch: char, text: string, line: int)
    | Text(text: string, line: int)

  /** The translator's mutable state: three buffers, three provenance lists, the current handler. */
  datatype Session = Session(
    declarations: string, localDeclarations: string, content: string,
    declarationLines: seq<int>, localDeclarationLines: seq<int>, contentLines: seq<int>,
    current: Option<Handler>)

  const Initial := Session("", "", "", [], [], [], None)

  /** resetTranslator: every buffer and list emptied; the current handler is left as it was. */
  function Reset(s: Session): (r: Session)
    ensures r.declarations == r.localDeclarations == r.content == ""
    ensures r.declarationLines == r.localDeclarationLines == r.contentLines == []
    ensures r.current == s.current
  {
    s.(declarations := "", localDeclarations := "", content := "",
       declarationLines := [], localDeclarationLines := [], contentLines := [])
  }

  /** The provenance numbers `from`, `from + 1`, ..., `n` of them. */
  function Consecutive(from: int, n: nat): (r: seq<int>)
    ensures |r| == n
    ensures forall i :: 0 <= i < n ==> r[i] == from + i
  {
    seq(n, i => from + i)
  }

  // ---------------------------------------------------------------------------
  // The callbacks

  /** java(ch, text, line): every physical line of `text`, with a line break, goes to the
      declarations when `ch` is '!' and to the content otherwise; provenance counts up from `line`. */
  function JavaStep(s: Session, ch: char, text: string, line: int): Session
  {
    JavaLines(s, ch, Pieces(text, '\n'), line)
  }

  /** The lines `ps`, each with a line break, into the region `ch` selects, numbered from `line`. */
  function JavaLines(s: Session, ch: char, ps: seq<string>, line: int): Session
  {
    if ch == '!' then
      s.(declarations := s.declarations + Terminated(ps, '\n'),
         declarationLines := s.declarationLines + Consecutive(line, |ps|))
    else
      s.(content := s.content + Terminated(ps, '\n'),
         contentLines := s.contentLines + Consecutive(line, |ps|))
  }

  function PrintlnStatement(p: string): string
  {
    "    System.out.println(\"" + p + "\");  //$NON-NLS-1$\n"
  }

  function PrintStatement(p: string): string
  {
    "    System.out.print(\"" + p + "\");  //$NON-NLS-1$\n"
  }

  function PrintlnStatements(ps: seq<string>): string
  {
    if ps == [] then "" else PrintlnStatements(ps[..|ps| - 1]) + PrintlnStatement(ps[|ps| - 1])
  }

  /** text(t, line): each complete line of `t` becomes a println statement, a non-empty
      last partial line a print statement, the text copied as it is; only the content grows. */
  function TextStep(s: Session, t: string, line: int): Session
  {
    s.(content := s.content + TextStatements(t),
       contentLines := s.contentLines + Consecutive(line, |Pieces(t, '\n')|))
  }

  /** The println statements for `ps` in the content, numbered from `line`. */
  function TextLines(s: Session, ps: seq<string>, line: int): Session
  {
    s.(content := s.content + PrintlnStatements(ps), contentLines := s.contentLines + Consecutive(line, |ps|))
  }

  lemma ConsecutiveSnoc(line: int, n: nat)
    ensures Consecutive(line, n + 1) == Consecutive(line, n) + [line + n]
  {
  }

  /** Adding one more line to what java has written so far. */
  lemma JavaLinesSnoc(s: Session, ch: char, ps: seq<string>, p: string, line: int)
    ensures JavaLines(JavaLines(s, ch, ps, line), ch, [p], line + |ps|) == JavaLines(s, ch, ps + [p], line)
  {
    ConsecutiveSnoc(line, |ps|);
    assert (ps + [p])[..|ps|] == ps;
    assert Terminated([p], '\n') == p + "\n";
    assert Terminated(ps + [p], '\n') == Terminated(ps, '\n') + p + "\n";
  }

  /** Adding one more println statement to what text has written so far. */
  lemma TextLinesSnoc(s: Session, ps: seq<string>, p: string, line: int)
    ensures var r := TextLines(s, ps, line);
      TextLines(s, ps + [p], line) == r.(content := r.content + PrintlnStatement(p), contentLines := r.contentLines + [line + |ps|])
  {
    ConsecutiveSnoc(line, |ps|);
    assert (ps + [p])[..|ps|] == ps;
  }

  /** java as its complete lines, then the remainder when there is one. */
  lemma JavaStepLines(s: Session, ch: char, text: string, line: int)
    ensures var done, tail := Complete(text, '\n'), Tail(text, '\n');
      JavaStep(s, ch, text, line) == JavaLines(s, ch, done + (if tail == [] then [] else [tail]), line)
  {
  }

  /** text as its complete lines, then the remainder when there is one. */
  lemma TextStepLines(s: Session, t: string, line: int)
    ensures var done, tail := Complete(t, '\n'), Tail(t, '\n'); var r := TextLines(s, done, line);
      TextStep(s, t, line) ==
        if tail == [] then r
        else r.(content := r.content + PrintStatement(tail), contentLines := r.contentLines + [line + |done|])
  {
    var done, tail := Complete(t, '\n'), Tail(t, '\n');
    if tail == [] {
      assert Pieces(t, '\n') == done + [];
      assert TextStatements(t) == PrintlnStatements(done) + "";
    } else {
      var n := |done|;
      assert |Pieces(t, '\n')| == n + 1;
      ConsecutiveSnoc(line, n);
      var lines := Consecutive(line, n);
      assert s.contentLines + Consecutive(line, n + 1) == (s.contentLines + lines) + [line + n];
      var text := PrintlnStatements(done);
      assert s.content + TextStatements(t) == (s.content + text) + PrintStatement(tail);
    }
  }

  function TextStatements(t: string): string
  {
    var tail := Tail(t, '\n');
    PrintlnStatements(Complete(t, '\n')) + (if tail == [] then "" else PrintStatement(tail))
  }

  /** One append through the result collector: the line with a line break, and its provenance. */
  function Collect(s: Session, e: Emission): Session
  {
    match e.region
    case Declarations =>
      s.(declarations := s.declarations + e.text + "\n", declarationLines := s.declarationLines + [e.sourceLine])
    case LocalDeclarations =>
      s.(localDeclarations := s.localDeclarations + e.text + "\n",
         localDeclarationLines := s.localDeclarationLines + [e.sourceLine])
    case Content =>
      s.(content := s.content + e.text + "\n", contentLines := s.contentLines + [e.sourceLine])
  }

  function CollectAll(s: Session, es: seq<Emission>): Session
  {
    if es == [] then s else Collect(CollectAll(s, es[..|es| - 1]), es[|es| - 1])
  }

  /** endTag: the current handler's appends take effect whether or not it then throws;
      the exception goes no further and the current handler stays set. */
  function EndTagStep(s: Session, p: Production): Session
  {
    if s.current.Some? then CollectAll(s, p.emissions) else s
  }

  function Step(s: Session, e: Event, f: Factory): Session
  {
    match e
    case StartTag(_, name) => s.(current := f.getHandler(name))
    case TagAttribute(_, _, _) => s
    case EndTag(_, p, _) => EndTagStep(s, p)
    case Java(ch, text, line) => JavaStep(s, ch, text, line)
    case Text(t, line) => TextStep(s, t, line)
  }

  /** The session after the parser has made the callbacks `evs`. */
  function Run(s: Session, evs: seq<Event>, f: Factory): Session
  {
    if evs == [] then s else Step(Run(s, evs[..|evs| - 1], f), evs[|evs| - 1], f)
  }

  /** A factory that resolves no tag: what stands in for a factory that was never set. */
  const NoHandlers := Factory(_ => None, _ => None)

  /** Only start tags consult the factory. */
  lemma {:induction false} RunIgnoresFactory(s: Session, evs: seq<Event>, f: Factory, g: Factory)
    requires !HasStartTag(evs)
    ensures Run(s, evs, f) == Run(s, evs, g)
  {
    if evs != [] {
      HasStartTagPrefix(evs);
      RunIgnoresFactory(s, evs[..|evs| - 1], f, g);
    }
  }

  lemma RunExtend(s: Session, evs: seq<Event>, i: nat, f: Factory)
    requires i < |evs|
    ensures Run(s, evs[..i + 1], f) == Step(Run(s, evs[..i], f), evs[i], f)
  {
    assert evs[..i + 1][..i] == evs[..i];
  }

  // ---------------------------------------------------------------------------
  // Assembly

  function Header(name: string): string
  {
    "public class " + name + " {\n\n"
  }

  const BodyOpen := "  public void out() {\n"
  const BodyClose := "  }\n"
  const UnitClose := "}\n"

  /** The text translate returns. */
  function Generated(name: string, s: Session): string
  {
    Header(name) + s.declarations + "\n" + BodyOpen
    + (if |s.localDeclarations| > 0 then s.localDeclarations else "")
    + s.content + BodyClose + UnitClose
  }

  function Zeros(n: nat): (r: seq<int>)
    ensures |r| == n && forall i :: 0 <= i < n ==> r[i] == 0
  {
    seq(n, _ => 0)
  }

  /** The int[] translate fills: entry 0 unused, entry k the original line of generated line k. */
  function SourceMap(s: Session): seq<int>
  {
    var head := [1, 1, 1] + s.declarationLines;
    var blank := head[|head| - 1] + 1;
    var locals := if |s.localDeclarations| > 0 then s.localDeclarationLines else [];
    var body := head + [blank, blank + 1] + locals + s.contentLines;
    var close := body[|body| - 1];
    body + [close, close]
    + (if |s.localDeclarations| > 0 then [] else Zeros(|s.localDeclarationLines|))
  }

  // ---------------------------------------------------------------------------
  // The buffer/list invariant

  /** A region holds one line break per provenance entry and ends with a line break. */
  predicate RegionWellFormed(buffer: string, lines: seq<int>)
  {
    Count(buffer, '\n') == |lines| && (buffer == [] || Last(buffer) == '\n')
  }

  predicate WellFormed(s: Session)
  {
    && RegionWellFormed(s.declarations, s.declarationLines)
    && RegionWellFormed(s.localDeclarations, s.localDeclarationLines)
    && RegionWellFormed(s.content, s.contentLines)
  }

  lemma AppendLines(buffer: string, lines: seq<int>, text: string, more: seq<int>)
    requires RegionWellFormed(buffer, lines)
    requires Count(text, '\n') == |more|
    requires text == [] || Last(text) == '\n'
    ensures RegionWellFormed(buffer + text, lines + more)
  {
    CountAppend(buffer, text, '\n');
    if text == [] {
      assert buffer + text == buffer;
    }
  }

  lemma RegionSize(buffer: string, lines: seq<int>)
    requires RegionWellFormed(buffer, lines)
    ensures |Pieces(buffer, '\n')| == |lines|
  {
    TailEmpty(buffer, '\n');
    PiecesCount(buffer, '\n');
  }

  /** A well-formed region's buffer is empty exactly when it has no provenance entries. */
  lemma RegionEmpty(buffer: string, lines: seq<int>)
    requires RegionWellFormed(buffer, lines)
    ensures |buffer| > 0 <==> |lines| > 0
  {
    RegionPieces(buffer, lines);
  }

  /** In a well-formed region the buffer's lines are the pieces of the buffer, one per entry. */
  lemma RegionPieces(buffer: string, lines: seq<int>)
    requires RegionWellFormed(buffer, lines)
    ensures Terminated(Pieces(buffer, '\n'), '\n') == buffer
    ensures |Pieces(buffer, '\n')| == |lines|
    ensures forall i :: 0 <= i < |Pieces(buffer, '\n')| ==> '\n' !in Pieces(buffer, '\n')[i]
    ensures |buffer| > 0 <==> |lines| > 0
  {
    TailEmpty(buffer, '\n');
    PiecesRoundTrip(buffer, '\n');
    PiecesCount(buffer, '\n');
    PiecesFree(buffer, '\n');
  }

  /** java adds one provenance entry per line break of `text`, and one more for a
      non-empty remainder, and keeps every region well formed. */
  lemma JavaStepWellFormed(s: Session, ch: char, text: string, line: int)
    requires WellFormed(s)
    ensures WellFormed(JavaStep(s, ch, text, line))
    ensures var r := JavaStep(s, ch, text, line);
      |r.declarationLines| + |r.contentLines|
      == |s.declarationLines| + |s.contentLines| + Count(text, '\n') + (if Tail(text, '\n') == [] then 0 else 1)
  {
    var pieces := Pieces(text, '\n');
    PiecesFree(text, '\n');
    PiecesCount(text, '\n');
    CountTerminated(pieces, '\n');
    TerminatedEnds(pieces, '\n');
    if ch == '!' {
      AppendLines(s.declarations, s.declarationLines, Terminated(pieces, '\n'), Consecutive(line, |pieces|));
    } else {
      AppendLines(s.content, s.contentLines, Terminated(pieces, '\n'), Consecutive(line, |pieces|));
    }
  }

  /** A line-free text between line-free literals, closed by one line break, is one line. */
  lemma OneLine(pre: string, p: string, post: string)
    requires '\n' !in pre && '\n' !in p && '\n' !in post
    ensures Count(pre + p + post + "\n", '\n') == 1 && Last(pre + p + post + "\n") == '\n'
  {
    CountAppend(pre, p, '\n');
    CountAppend(pre + p, post, '\n');
    CountAppend(pre + p + post, "\n", '\n');
  }

  lemma StatementLine(p: string, println: bool)
    requires '\n' !in p
    ensures var st := if println then PrintlnStatement(p) else PrintStatement(p);
      Count(st, '\n') == 1 && Last(st) == '\n'
  {
    var pre := if println then "    System.out.println(\"" else "    System.out.print(\"";
    var post := "\");  //$NON-NLS-1$";
    assert forall i :: 0 <= i < |post| ==> post[i] != '\n';
    assert forall i :: 0 <= i < |pre| ==> pre[i] != '\n';
    OneLine(pre, p, post);
    assert (if println then PrintlnStatement(p) else PrintStatement(p)) == pre + p + post + "\n";
  }

  lemma {:induction false} PrintlnStatementsLines(ps: seq<string>)
    requires forall i :: 0 <= i < |ps| ==> '\n' !in ps[i]
    ensures Count(PrintlnStatements(ps), '\n') == |ps|
    ensures PrintlnStatements(ps) == [] || Last(PrintlnStatements(ps)) == '\n'
  {
    if ps != [] {
      var init := ps[..|ps| - 1];
      PrintlnStatementsLines(init);
      StatementLine(ps[|ps| - 1], true);
      CountAppend(PrintlnStatements(init), PrintlnStatement(ps[|ps| - 1]), '\n');
    }
  }

  /** The statements for `t` are one line per piece of `t`. */
  lemma TextStatementsLines(t: string)
    ensures Count(TextStatements(t), '\n') == |Pieces(t, '\n')|
    ensures TextStatements(t) == [] || Last(TextStatements(t)) == '\n'
  {
    var complete, tail := Complete(t, '\n'), Tail(t, '\n');
    CompleteFree(t, '\n');
    TailFree(t, '\n');
    PrintlnStatementsLines(complete);
    if tail != [] {
      StatementLine(tail, false);
      CountAppend(PrintlnStatements(complete), PrintStatement(tail), '\n');
    } else {
      assert TextStatements(t) == PrintlnStatements(complete);
    }
  }

  /** text adds one content line per line break of `t`, one more for a non-empty
      remainder, and keeps every region well formed; nothing else changes. */
  lemma TextStepWellFormed(s: Session, t: string, line: int)
    requires WellFormed(s)
    ensures WellFormed(TextStep(s, t, line))
    ensures var r := TextStep(s, t, line);
      |r.contentLines| == |s.contentLines| + Count(t, '\n') + (if Tail(t, '\n') == [] then 0 else 1)
      && r.declarations == s.declarations && r.localDeclarations == s.localDeclarations
      && r.declarationLines == s.declarationLines && r.localDeclarationLines == s.localDeclarationLines
  {
    TextStatementsLines(t);
    PiecesCount(t, '\n');
    AppendLines(s.content, s.contentLines, TextStatements(t), Consecutive(line, |Pieces(t, '\n')|));
  }

  lemma CollectWellFormed(s: Session, e: Emission)
    requires WellFormed(s)
    ensures WellFormed(Collect(s, e))
  {
    var line := e.text + "\n";
    assert Count(line, '\n') == 1 by {
      CountAppend(e.text, "\n", '\n');
    }
    match e.region
    case Declarations =>
      AppendLines(s.declarations, s.declarationLines, line, [e.sourceLine]);
      assert s.declarations + e.text + "\n" == s.declarations + line;
    case LocalDeclarations =>
      AppendLines(s.localDeclarations, s.localDeclarationLines, line, [e.sourceLine]);
      assert s.localDeclarations + e.text + "\n" == s.localDeclarations + line;
    case Content =>
      AppendLines(s.content, s.contentLines, line, [e.sourceLine]);
      assert s.content + e.text + "\n" == s.content + line;
  }

  /** The collector never touches the current handler. */
  lemma {:induction false} CollectAllKeepsHandler(s: Session, es: seq<Emission>)
    ensures CollectAll(s, es).current == s.current
  {
    if es != [] {
      CollectAllKeepsHandler(s, es[..|es| - 1]);
    }
  }

  lemma {:induction false} CollectAllWellFormed(s: Session, es: seq<Emission>)
    requires WellFormed(s)
    ensures WellFormed(CollectAll(s, es))
    ensures CollectAll(s, es).current == s.current
  {
    if es != [] {
      CollectAllWellFormed(s, es[..|es| - 1]);
      CollectWellFormed(CollectAll(s, es[..|es| - 1]), es[|es| - 1]);
    }
  }

  lemma StepWellFormed(s: Session, e: Event, f: Factory)
    requires WellFormed(s)
    ensures WellFormed(Step(s, e, f))
  {
    match e
    case StartTag(_, _) =>
    case TagAttribute(_, _, _) =>
    case EndTag(_, p, _) => if s.current.Some? { CollectAllWellFormed(s, p.emissions); }
    case Java(ch, text, line) => JavaStepWellFormed(s, ch, text, line);
    case Text(t, line) => TextStepWellFormed(s, t, line);
  }

  /** Every parser callback keeps each buffer's line count equal to its list's size. */
  lemma {:induction false} RunWellFormed(s: Session, evs: seq<Event>, f: Factory)
    requires WellFormed(s)
    ensures WellFormed(Run(s, evs, f))
  {
    if evs != [] {
      RunWellFormed(s, evs[..|evs| - 1], f);
      StepWellFormed(Run(s, evs[..|evs| - 1], f), evs[|evs| - 1], f);
    }
  }

  // ---------------------------------------------------------------------------
  // Session isolation

  predicate SameBuffers(a: Session, b: Session)
  {
    a.(current := None) == b.(current := None)
  }

  /** Every end tag comes after some start tag. */
  predicate EndTagsOpened(evs: seq<Event>)
  {
    forall i :: 0 <= i < |evs| && evs[i].EndTag? ==> exists j :: 0 <= j < i && evs[j].StartTag?
  }

  predicate HasStartTag(evs: seq<Event>)
  {
    exists j :: 0 <= j < |evs| && evs[j].StartTag?
  }

  /** One callback on two sessions that agree on their buffers, and on the current
      handler when the callback is an end tag. */
  lemma StepAgrees(r1: Session, r2: Session, e: Event, f: Factory)
    requires SameBuffers(r1, r2)
    requires e.EndTag? ==> r1.current == r2.current
    ensures SameBuffers(Step(r1, e, f), Step(r2, e, f))
    ensures e.StartTag? || r1.current == r2.current ==> Step(r1, e, f).current == Step(r2, e, f).current
  {
    if r1.current == r2.current {
      assert r1 == r2;
    }
  }

  lemma HasStartTagPrefix(evs: seq<Event>)
    requires evs != []
    ensures HasStartTag(evs) <==> HasStartTag(evs[..|evs| - 1]) || evs[|evs| - 1].StartTag?
  {
    var init := evs[..|evs| - 1];
    if HasStartTag(evs) && !evs[|evs| - 1].StartTag? {
      var j :| 0 <= j < |evs| && evs[j].StartTag?;
      assert init[j] == evs[j];
    }
    if HasStartTag(init) {
      var j :| 0 <= j < |init| && init[j].StartTag?;
      assert evs[j] == init[j];
    }
  }

  lemma EndTagsOpenedPrefix(evs: seq<Event>)
    requires evs != [] && EndTagsOpened(evs)
    ensures EndTagsOpened(evs[..|evs| - 1])
    ensures evs[|evs| - 1].EndTag? ==> HasStartTag(evs[..|evs| - 1])
  {
    var init := evs[..|evs| - 1];
    forall i | 0 <= i < |init| && init[i].EndTag?
      ensures exists j :: 0 <= j < i && init[j].StartTag?
    {
      assert evs[i] == init[i];
      var j :| 0 <= j < i && evs[j].StartTag?;
      assert init[j] == evs[j];
    }
    if evs[|evs| - 1].EndTag? {
      var j :| 0 <= j < |evs| - 1 && evs[j].StartTag?;
      assert init[j] == evs[j];
    }
  }

  lemma {:induction false} RunAgrees(s1: Session, s2: Session, evs: seq<Event>, f: Factory)
    requires SameBuffers(s1, s2)
    requires EndTagsOpened(evs)
    ensures SameBuffers(Run(s1, evs, f), Run(s2, evs, f))
    ensures HasStartTag(evs) ==> Run(s1, evs, f).current == Run(s2, evs, f).current
  {
    if evs != [] {
      var init, e := evs[..|evs| - 1], evs[|evs| - 1];
      EndTagsOpenedPrefix(evs);
      HasStartTagPrefix(evs);
      RunAgrees(s1, s2, init, f);
      StepAgrees(Run(s1, init, f), Run(s2, init, f), e, f);
    }
  }

  /** Translating after a reset gives the same text and source map whatever the
      translator held before, as long as no end tag precedes every start tag. */
  lemma TranslationIsolated(s1: Session, s2: Session, evs: seq<Event>, f: Factory, name: string)
    requires EndTagsOpened(evs)
    ensures Generated(name, Run(Reset(s1), evs, f)) == Generated(name, Run(Reset(s2), evs, f))
    ensures SourceMap(Run(Reset(s1), evs, f)) == SourceMap(Run(Reset(s2), evs, f))
  {
    RunAgrees(Reset(s1), Reset(s2), evs, f);
    OutputsAgree(name, Run(Reset(s1), evs, f), Run(Reset(s2), evs, f));
  }

  /** The other side: an end tag before any start tag goes to the handler an earlier
      translate left current. One such end tag whose handler appends one line gives a
      different text and map than after a translator that had no handler. */
  lemma TranslationLeaks(s1: Session, s2: Session, selfClosing: bool, e: Emission, line: int, f: Factory, name: string)
    requires s1.current.Some? && s2.current.None?
    ensures var evs := [EndTag(selfClosing, Production([e], false), line)];
      && !EndTagsOpened(evs)
      && Generated(name, Run(Reset(s1), evs, f)) != Generated(name, Run(Reset(s2), evs, f))
      && SourceMap(Run(Reset(s1), evs, f)) != SourceMap(Run(Reset(s2), evs, f))
  {
    var evs := [EndTag(selfClosing, Production([e], false), line)];
    assert evs[..0] == [];
    var r1, r2 := Run(Reset(s1), evs, f), Run(Reset(s2), evs, f);
    assert r1 == Step(Run(Reset(s1), [], f), evs[0], f) == EndTagStep(Reset(s1), Production([e], false));
    assert r2 == Step(Run(Reset(s2), [], f), evs[0], f) == Reset(s2);
    assert CollectAll(Reset(s1), [e]) == Collect(Reset(s1), e) by {
      assert [e][..0] == [];
    }
    assert r1 == Collect(Reset(s1), e);
    SourceMapLength(r1);
    SourceMapLength(r2);
    assert |Generated(name, r1)| != |Generated(name, r2)|;
  }

  /** The generated text and the source map read only the buffers and their lists. */
  lemma OutputsAgree(name: string, r1: Session, r2: Session)
    requires SameBuffers(r1, r2)
    ensures Generated(name, r1) == Generated(name, r2)
    ensures SourceMap(r1) == SourceMap(r2)
  {
    assert r1.declarations == r2.declarations && r1.localDeclarations == r2.localDeclarations
      && r1.content == r2.content && r1.declarationLines == r2.declarationLines
      && r1.localDeclarationLines == r2.localDeclarationLines && r1.contentLines == r2.contentLines;
  }

  // ---------------------------------------------------------------------------
  // The source map against the generated text

  /** fSmap has D + L + C + 7 entries, whatever the buffers hold. */
  lemma SourceMapLength(s: Session)
    ensures |SourceMap(s)| == |s.declarationLines| + |s.localDeclarationLines| + |s.contentLines| + 7
  {
  }

  /** Where each entry of fSmap comes from, section by section. */
  lemma SourceMapLayout(s: Session)
    requires WellFormed(s)
    ensures var m, d, l, c := SourceMap(s), |s.declarationLines|, |s.localDeclarationLines|, |s.contentLines|;
      && |m| == d + l + c + 7
      && m[0] == 1 && m[1] == 1 && m[2] == 1
      && (forall j :: 0 <= j < d ==> m[3 + j] == s.declarationLines[j])
      && m[d + 3] == m[d + 2] + 1
      && m[d + 4] == m[d + 3] + 1
      && (forall j :: 0 <= j < l ==> m[d + 5 + j] == s.localDeclarationLines[j])
      && (forall j :: 0 <= j < c ==> m[d + 5 + l + j] == s.contentLines[j])
      && m[d + l + c + 5] == m[d + l + c + 4]
      && m[d + l + c + 6] == m[d + l + c + 4]
  {
    RegionEmpty(s.localDeclarations, s.localDeclarationLines);
    SourceMapSections(s);
    SectionsLayout(SourceMap(s), s.declarationLines, s.localDeclarationLines, s.contentLines);
  }

  /** A map laid out in sections has each list entry at its offset. */
  lemma SectionsLayout(m: seq<int>, ds: seq<int>, ls: seq<int>, cs: seq<int>)
    requires var d, l, c := |ds|, |ls|, |cs|;
      && |m| == d + l + c + 7
      && m[..d + 5] == [1, 1, 1] + ds + [m[d + 2] + 1, m[d + 2] + 2]
      && m[d + 5..d + 5 + l] == ls
      && m[d + 5 + l..d + 5 + l + c] == cs
    ensures var d, l, c := |ds|, |ls|, |cs|;
      && m[0] == 1 && m[1] == 1 && m[2] == 1
      && (forall j :: 0 <= j < d ==> m[3 + j] == ds[j])
      && m[d + 3] == m[d + 2] + 1
      && m[d + 4] == m[d + 3] + 1
      && (forall j :: 0 <= j < l ==> m[d + 5 + j] == ls[j])
      && (forall j :: 0 <= j < c ==> m[d + 5 + l + j] == cs[j])
  {
    var d, l, c := |ds|, |ls|, |cs|;
    var front := m[..d + 5];
    assert m[0] == front[0] && m[1] == front[1] && m[2] == front[2];
    assert m[d + 3] == front[d + 3] && m[d + 4] == front[d + 4];
    forall j | 0 <= j < d ensures m[3 + j] == ds[j] {
      assert m[3 + j] == front[3 + j];
    }
    forall j | 0 <= j < l ensures m[d + 5 + j] == ls[j] {
      assert m[d + 5 + j] == m[d + 5..d + 5 + l][j];
    }
    forall j | 0 <= j < c ensures m[d + 5 + l + j] == cs[j] {
      assert m[d + 5 + l + j] == m[d + 5 + l..d + 5 + l + c][j];
    }
  }

  /** The header part of fSmap, then the local and content lists, then the two closings. */
  lemma SourceMapSections(s: Session)
    requires |s.localDeclarations| > 0 <==> |s.localDeclarationLines| > 0
    ensures var m, d, l, c := SourceMap(s), |s.declarationLines|, |s.localDeclarationLines|, |s.contentLines|;
      && |m| == d + l + c + 7
      && m[..d + 5] == [1, 1, 1] + s.declarationLines + [m[d + 2] + 1, m[d + 2] + 2]
      && m[d + 5..d + 5 + l] == s.localDeclarationLines
      && m[d + 5 + l..d + 5 + l + c] == s.contentLines
      && m[d + l + c + 5] == m[d + l + c + 4]
      && m[d + l + c + 6] == m[d + l + c + 4]
  {
    var d, l := |s.declarationLines|, |s.localDeclarationLines|;
    var head := [1, 1, 1] + s.declarationLines;
    var blank := head[|head| - 1] + 1;
    var front := head + [blank, blank + 1];
    var body := front + s.localDeclarationLines + s.contentLines;
    var close := body[|body| - 1];
    var m := body + [close, close];
    assert SourceMap(s) == m;
    assert m[d + 2] == head[|head| - 1];
    assert m[..d + 5] == front;
    assert m[d + 5..d + 5 + l] == s.localDeclarationLines;
    assert m[d + 5 + l..d + 5 + l + |s.contentLines|] == s.contentLines;
  }

  /** fSmap is its front part, the local and content lists, then twice the last entry before them. */
  lemma SourceMapJoin(s: Session, front: seq<int>, body: seq<int>)
    requires WellFormed(s)
    requires var head := [1, 1, 1] + s.declarationLines; var blank := head[|head| - 1] + 1;
      front == head + [blank, blank + 1]
    requires body == front + s.localDeclarationLines + s.contentLines
    ensures SourceMap(s) == body + [body[|body| - 1], body[|body| - 1]]
  {
    RegionEmpty(s.localDeclarations, s.localDeclarationLines);
  }

  const HeaderLine := "public class "
  const BodyOpenLine := "  public void out() {"

  /** The physical lines of the generated unit: the two header lines, the declarations,
      a blank line, the body opening, the local declarations, the content, the two closings. */
  function GeneratedLineList(name: string, s: Session): seq<string>
  {
    [HeaderLine + name + " {", ""] + Pieces(s.declarations, '\n')
    + ["", BodyOpenLine] + Pieces(s.localDeclarations, '\n')
    + Pieces(s.content, '\n') + ["  }", "}"]
  }

  lemma TerminatedSix(a: seq<string>, b: seq<string>, c: seq<string>, d: seq<string>, e: seq<string>, f: seq<string>)
    ensures Terminated(a + b + c + d + e + f, '\n')
      == Terminated(a, '\n') + Terminated(b, '\n') + Terminated(c, '\n')
         + Terminated(d, '\n') + Terminated(e, '\n') + Terminated(f, '\n')
  {
    TerminatedAppend(a, b, '\n');
    TerminatedAppend(a + b, c, '\n');
    TerminatedAppend(a + b + c, d, '\n');
    TerminatedAppend(a + b + c + d, e, '\n');
    TerminatedAppend(a + b + c + d + e, f, '\n');
  }

  lemma TerminatedPair(x: string, y: string)
    ensures Terminated([x, y], '\n') == x + "\n" + y + "\n"
  {
    assert [x, y][..1] == [x];
    assert Terminated([x], '\n') == x + "\n";
  }

  lemma HeaderTerminated(name: string)
    ensures Terminated([HeaderLine + name + " {", ""], '\n') == Header(name)
  {
    TerminatedPair(HeaderLine + name + " {", "");
    assert HeaderLine + name + " {" + "\n" + "" + "\n" == "public class " + name + " {\n\n";
  }

  lemma MiddleTerminated()
    ensures Terminated(["", BodyOpenLine], '\n') == "\n" + BodyOpen
  {
    TerminatedPair("", BodyOpenLine);
  }

  lemma ClosingTerminated()
    ensures Terminated(["  }", "}"], '\n') == BodyClose + UnitClose
  {
    TerminatedPair("  }", "}");
  }

  lemma Assemble(h: string, x: string, m: string, y: string, z: string, t: string,
                 hs: seq<string>, xs: seq<string>, ms: seq<string>, ys: seq<string>, zs: seq<string>, ts: seq<string>)
    requires Terminated(hs, '\n') == h && Terminated(xs, '\n') == x && Terminated(ms, '\n') == m
    requires Terminated(ys, '\n') == y && Terminated(zs, '\n') == z && Terminated(ts, '\n') == t
    ensures Terminated(hs + xs + ms + ys + zs + ts, '\n') == h + x + m + y + z + t
  {
    TerminatedSix(hs, xs, ms, ys, zs, ts);
  }

  lemma GeneratedSections(name: string, s: Session)
    ensures Generated(name, s)
      == Header(name) + s.declarations + ("\n" + BodyOpen) + s.localDeclarations + s.content + (BodyClose + UnitClose)
  {
    var h, x, y, z := Header(name), s.declarations, s.localDeclarations, s.content;
    assert (if |y| > 0 then y else "") == y;
    assert h + x + "\n" + BodyOpen == h + x + ("\n" + BodyOpen);
  }

  lemma GeneratedIsTerminated(name: string, s: Session)
    requires WellFormed(s)
    ensures Terminated(GeneratedLineList(name, s), '\n') == Generated(name, s)
  {
    RegionPieces(s.declarations, s.declarationLines);
    RegionPieces(s.localDeclarations, s.localDeclarationLines);
    RegionPieces(s.content, s.contentLines);
    HeaderTerminated(name);
    MiddleTerminated();
    ClosingTerminated();
    GeneratedSections(name, s);
    Assemble(Header(name), s.declarations, "\n" + BodyOpen, s.localDeclarations, s.content, BodyClose + UnitClose,
      [HeaderLine + name + " {", ""], Pieces(s.declarations, '\n'), ["", BodyOpenLine],
      Pieces(s.localDeclarations, '\n'), Pieces(s.content, '\n'), ["  }", "}"]);
  }

  lemma FreeLiteral(name: string)
    requires '\n' !in name
    ensures '\n' !in HeaderLine + name + " {"
    ensures '\n' !in BodyOpenLine
  {
    var first := HeaderLine + name + " {";
    assert forall i :: 0 <= i < |HeaderLine| ==> HeaderLine[i] != '\n';
    assert forall i :: 0 <= i < |BodyOpenLine| ==> BodyOpenLine[i] != '\n';
    forall i | 0 <= i < |first| ensures first[i] != '\n' {
      if i < |HeaderLine| {
        assert first[i] == HeaderLine[i];
      } else if i < |HeaderLine| + |name| {
        assert first[i] == name[i - |HeaderLine|];
      }
    }
  }

  lemma GeneratedLineListFree(name: string, s: Session)
    requires '\n' !in name
    ensures forall i :: 0 <= i < |GeneratedLineList(name, s)| ==> '\n' !in GeneratedLineList(name, s)[i]
  {
    var pd, pl, pc := Pieces(s.declarations, '\n'), Pieces(s.localDeclarations, '\n'), Pieces(s.content, '\n');
    PiecesFree(s.declarations, '\n');
    PiecesFree(s.localDeclarations, '\n');
    PiecesFree(s.content, '\n');
    FreeLiteral(name);
    var all := GeneratedLineList(name, s);
    forall i | 0 <= i < |all| ensures '\n' !in all[i] {
      if i < 2 {
      } else if i < 2 + |pd| {
        assert all[i] == pd[i - 2];
      } else if i < 4 + |pd| {
      } else if i < 4 + |pd| + |pl| {
        assert all[i] == pl[i - 4 - |pd|];
      } else if i < 4 + |pd| + |pl| + |pc| {
        assert all[i] == pc[i - 4 - |pd| - |pl|];
      }
    }
  }

  lemma GeneratedLines(name: string, s: Session)
    requires WellFormed(s)
    requires '\n' !in name
    ensures Pieces(Generated(name, s), '\n') == GeneratedLineList(name, s)
  {
    GeneratedIsTerminated(name, s);
    GeneratedLineListFree(name, s);
    PiecesOfTerminated(GeneratedLineList(name, s), '\n');
  }

  lemma GeneratedLineListAt(name: string, s: Session)
    ensures var all, pd, pl, pc := GeneratedLineList(name, s), Pieces(s.declarations, '\n'),
      Pieces(s.localDeclarations, '\n'), Pieces(s.content, '\n');
      && |all| == |pd| + |pl| + |pc| + 6
      && (forall j :: 0 <= j < |pd| ==> all[2 + j] == pd[j])
      && (forall j :: 0 <= j < |pl| ==> all[|pd| + 4 + j] == pl[j])
      && (forall j :: 0 <= j < |pc| ==> all[|pd| + 4 + |pl| + j] == pc[j])
  {
  }

  /** The source map has one entry per generated line, after the unused entry 0. */
  lemma SourceMapSize(name: string, s: Session)
    requires WellFormed(s)
    requires '\n' !in name
    ensures |SourceMap(s)| == |Pieces(Generated(name, s), '\n')| + 1
  {
    RegionSize(s.declarations, s.declarationLines);
    RegionSize(s.localDeclarations, s.localDeclarationLines);
    RegionSize(s.content, s.contentLines);
    GeneratedLines(name, s);
  }

  /** Generated line 3 + j (entry 2 + j of its lines) is declaration line j, and maps to its provenance. */
  lemma DeclarationProvenance(name: string, s: Session)
    requires WellFormed(s)
    requires '\n' !in name
    ensures |Pieces(s.declarations, '\n')| == |s.declarationLines|
    ensures |SourceMap(s)| == |Pieces(Generated(name, s), '\n')| + 1
    ensures forall j :: 0 <= j < |s.declarationLines| ==>
      Pieces(Generated(name, s), '\n')[2 + j] == Pieces(s.declarations, '\n')[j]
      && SourceMap(s)[3 + j] == s.declarationLines[j]
  {
    SourceMapSize(name, s);
    RegionSize(s.declarations, s.declarationLines);
    GeneratedLines(name, s);
    GeneratedLineListAt(name, s);
    SourceMapLayout(s);
  }

  /** The local declarations sit after the declarations, the blank line and the body opening. */
  lemma LocalDeclarationProvenance(name: string, s: Session)
    requires WellFormed(s)
    requires '\n' !in name
    ensures |Pieces(s.localDeclarations, '\n')| == |s.localDeclarationLines|
    ensures |SourceMap(s)| == |Pieces(Generated(name, s), '\n')| + 1
    ensures var d := |s.declarationLines|;
      forall j :: 0 <= j < |s.localDeclarationLines| ==>
        Pieces(Generated(name, s), '\n')[d + 4 + j] == Pieces(s.localDeclarations, '\n')[j]
        && SourceMap(s)[d + 5 + j] == s.localDeclarationLines[j]
  {
    SourceMapSize(name, s);
    RegionSize(s.declarations, s.declarationLines);
    RegionSize(s.localDeclarations, s.localDeclarationLines);
    GeneratedLines(name, s);
    GeneratedLineListAt(name, s);
    SourceMapLayout(s);
  }

  /** The content sits after the local declarations. */
  lemma ContentProvenance(name: string, s: Session)
    requires WellFormed(s)
    requires '\n' !in name
    ensures |Pieces(s.content, '\n')| == |s.contentLines|
    ensures |SourceMap(s)| == |Pieces(Generated(name, s), '\n')| + 1
    ensures var d, l := |s.declarationLines|, |s.localDeclarationLines|;
      forall j :: 0 <= j < |s.contentLines| ==>
        Pieces(Generated(name, s), '\n')[d + 4 + l + j] == Pieces(s.content, '\n')[j]
        && SourceMap(s)[d + 5 + l + j] == s.contentLines[j]
  {
    SourceMapSize(name, s);
    RegionSize(s.declarations, s.declarationLines);
    RegionSize(s.localDeclarations, s.localDeclarationLines);
    RegionSize(s.content, s.contentLines);
    GeneratedLines(name, s);
    GeneratedLineListAt(name, s);
    SourceMapLayout(s);
  }

  predicate InRange(lines: seq<int>, lo: int, hi: int)
  {
    forall i :: 0 <= i < |lines| ==> lo <= lines[i] <= hi
  }

  /** When every recorded provenance lies in 1..max, every entry lies in 1..max + 2:
      the two synthetic lines after the declarations count on past the last entry. */
  lemma SourceMapBounds(s: Session, max: int)
    requires WellFormed(s)
    requires max >= 1
    requires InRange(s.declarationLines, 1, max)
    requires InRange(s.localDeclarationLines, 1, max)
    requires InRange(s.contentLines, 1, max)
    ensures InRange(SourceMap(s), 1, max + 2)
  {
    RegionEmpty(s.localDeclarations, s.localDeclarationLines);
    SourceMapSections(s);
    SectionsInRange(SourceMap(s), s.declarationLines, s.localDeclarationLines, s.contentLines, max);
  }

  /** A map laid out as fSmap is, from lists in 1..max, lies in 1..max + 2. */
  lemma SectionsInRange(m: seq<int>, ds: seq<int>, ls: seq<int>, cs: seq<int>, max: int)
    requires max >= 1
    requires InRange(ds, 1, max) && InRange(ls, 1, max) && InRange(cs, 1, max)
    requires var d, l, c := |ds|, |ls|, |cs|;
      && |m| == d + l + c + 7
      && m[..d + 5] == [1, 1, 1] + ds + [m[d + 2] + 1, m[d + 2] + 2]
      && m[d + 5..d + 5 + l] == ls
      && m[d + 5 + l..d + 5 + l + c] == cs
      && m[d + l + c + 5] == m[d + l + c + 4]
      && m[d + l + c + 6] == m[d + l + c + 4]
    ensures InRange(m, 1, max + 2)
  {
    var d, l, c := |ds|, |ls|, |cs|;
    var front := m[..d + 5];
    assert 1 <= m[d + 2] <= max by {
      if d > 0 {
        assert m[d + 2] == front[d + 2] == ds[d - 1];
      } else {
        assert m[d + 2] == front[2];
      }
    }
    var last := m[d + l + c + 4];
    assert 1 <= last <= max + 2 by {
      if c > 0 {
        assert last == m[d + 5 + l..d + 5 + l + c][c - 1];
      } else if l > 0 {
        assert last == m[d + 5..d + 5 + l][l - 1];
      } else {
        assert last == front[d + 4];
      }
    }
    forall k | 0 <= k < |m| ensures 1 <= m[k] <= max + 2 {
      if k < d + 5 {
        assert m[k] == front[k];
        if 3 <= k < d + 3 {
          assert front[k] == ds[k - 3];
        }
      } else if k < d + 5 + l {
        assert m[k] == m[d + 5..d + 5 + l][k - d - 5];
      } else if k < d + 5 + l + c {
        assert m[k] == m[d + 5 + l..d + 5 + l + c][k - d - 5 - l];
      }
    }
  }

  /** An empty document: the blank line and the body opening map to lines 2 and 3,
      past the document's only line, and both closings follow the body opening. */
  lemma EmptyDocumentSourceMap()
    ensures SourceMap(Initial) == [1, 1, 1, 2, 3, 3, 3]
  {
  }
}
