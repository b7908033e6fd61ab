/**
  The JSP translator as a class whose fields the callbacks update in place:
  three buffers, three provenance lists, the source map array, the tag handler
  factory and the current tag handler. Each method is proved to follow the
  reference model in module JspSession.
*/
module JspTranslation {
  import opened Wrappers
  import opened Strings
  import opened Splitting
  import opened JspSession

  /** The call tagAttribute makes on the current handler: addAttribute(name, value, line). */
  datatype AttributeCall = AttributeCall(handler: Handler, attrName: string, value: string, line: int)

  /** The factory translate consults: the one set, or one that resolves nothing (only start
      tags consult it, and without a factory startTag and backTranslateOffsetInLine admit none). */
  function FactoryOf(f: Option<Factory>): Factory
  {
    if f.Some? then f.value else NoHandlers
  }

  /** One of translate's copying loops: `lines` into `m` from index `at` on. */
  method CopyLines(m: array<int>, at: nat, lines: seq<int>)
    requires at + |lines| <= m.Length
    modifies m
    ensures m[..at + |lines|] == old(m[..at]) + lines
    ensures m[at + |lines|..] == old(m[at + |lines|..])
  {
    var line := at;
    for i := 0 to |lines|
      invariant line == at + i
      invariant m[..line] == old(m[..at]) + lines[..i]
      invariant m[at + |lines|..] == old(m[at + |lines|..])
    {
      m[line] := lines[i];
      assert m[..line + 1] == m[..line] + [lines[i]];
      line := line + 1;
      assert lines[..i + 1] == lines[..i] + [lines[i]];
    }
    assert lines[..|lines|] == lines;
  }

  /** translate's first entries: 1 for the unused entry 0 and the two header lines, the
      declaration lines, then one more than the entry before for the blank line and again
      for the body opening. */
  method OpenSourceMap(m: array<int>, declarationLines: seq<int>)
    requires |declarationLines| + 5 <= m.Length
    modifies m
    ensures var head := [1, 1, 1] + declarationLines; var blank := head[|head| - 1] + 1;
      m[..|declarationLines| + 5] == head + [blank, blank + 1]
  {
    var d := |declarationLines|;
    m[0] := 1;
    m[1] := 1;
    m[2] := 1;
    assert m[..3] == [1, 1, 1];
    CopyLines(m, 3, declarationLines);
    ghost var head := [1, 1, 1] + declarationLines;
    assert m[..d + 3] == head;
    m[d + 3] := m[d + 2] + 1;
    m[d + 4] := m[d + 3] + 1;
    assert m[..d + 5] == m[..d + 3] + [m[d + 3], m[d + 4]];
  }

  /** translate's last two entries, for the closing braces of out() and of the class:
      both the entry of the last line written before them. */
  method CloseSourceMap(m: array<int>, line: nat)
    requires 0 < line && line + 2 == m.Length
    modifies m
    ensures m[..] == old(m[..line]) + [old(m[line - 1]), old(m[line - 1])]
  {
    m[line] := m[line - 1];
    m[line + 1] := m[line - 1];
    assert m[..] == m[..line] + [m[line], m[line + 1]];
  }

  /** The int[] translate fills, one entry per generated line. */
  method FillSourceMap(s: Session) returns (m: array<int>)
    requires WellFormed(s)
    ensures fresh(m) && m[..] == SourceMap(s)
  {
    var d, l, c := |s.declarationLines|, |s.localDeclarationLines|, |s.contentLines|;
    var lineCount := 2 + d + 1 + 1 + l + c + 3;
    m := new int[lineCount];
    OpenSourceMap(m, s.declarationLines);
    ghost var front := m[..d + 5];
    var line := FillBody(m, s);
    ghost var body := m[..line];
    CloseSourceMap(m, line);
    SourceMapJoin(s, front, body);
  }

  /** The local declaration lines, when the local buffer holds any, then the content lines,
      after the first d + 5 entries; returns the index of the next entry. */
  method FillBody(m: array<int>, s: Session) returns (line: nat)
    requires WellFormed(s)
    requires m.Length == |s.declarationLines| + |s.localDeclarationLines| + |s.contentLines| + 7
    modifies m
    ensures line == m.Length - 2
    ensures var at := |s.declarationLines| + 5;
      m[..line] == old(m[..at]) + s.localDeclarationLines + s.contentLines
  {
    RegionEmpty(s.localDeclarations, s.localDeclarationLines);
    ghost var front := m[..|s.declarationLines| + 5];
    line := |s.declarationLines| + 5;
    if |s.localDeclarations| > 0 {
      CopyLines(m, line, s.localDeclarationLines);
      line := line + |s.localDeclarationLines|;
    } else {
      assert front + s.localDeclarationLines == front;
    }
    assert m[..line] == front + s.localDeclarationLines;
    CopyLines(m, line, s.contentLines);
    line := line + |s.contentLines|;
  }

  class JspTranslator {
    var declarations: string
    var content: string
    var localDeclarations: string
    var contentLines: seq<int>
    var declarationLines: seq<int>
    var localDeclarationLines: seq<int>
    var smap: array?<int>
    var tagHandlerFactory: Option<Factory>
    var currentTagHandler: Option<Handler>

    /** The session the fields hold. */
    function State(): Session
      reads this
    {
      Session(declarations, localDeclarations, content,
        declarationLines, localDeclarationLines, contentLines, currentTagHandler)
    }

    constructor ()
      ensures State() == Initial
      ensures smap == null && tagHandlerFactory == None
    {
      declarations, content, localDeclarations := "", "", "";
      contentLines, declarationLines, localDeclarationLines := [], [], [];
      smap := null;
      tagHandlerFactory := None;
      currentTagHandler := None;
    }

    method SetTagHandlerFactory(factory: Factory)
      modifies this
      ensures tagHandlerFactory == Some(factory)
      ensures State() == old(State()) && smap == old(smap)
    {
      tagHandlerFactory := Some(factory);
    }

    /** startTag: the current handler becomes whatever the factory has for `name`. */
    method StartTag(endTag: bool, name: string, startName: int)
      requires tagHandlerFactory.Some?
      modifies this
      ensures tagHandlerFactory == old(tagHandlerFactory) && smap == old(smap)
      ensures currentTagHandler == tagHandlerFactory.value.getHandler(name)
      ensures State() == Step(old(State()), Event.StartTag(endTag, name), tagHandlerFactory.value)
    {
      currentTagHandler := tagHandlerFactory.value.getHandler(name);
    }

    /** tagAttribute: forwarded to the current handler when there is one, dropped otherwise;
        the translator itself does not change. */
    method TagAttribute(attrName: string, value: string, startName: int, startValue: int, line: int)
      returns (forwarded: Option<AttributeCall>)
      ensures forwarded.Some? <==> currentTagHandler.Some?
      ensures forwarded.Some? ==>
        forwarded.value == AttributeCall(currentTagHandler.value, attrName, value, line)
    {
      if currentTagHandler.Some? {
        forwarded := Some(AttributeCall(currentTagHandler.value, attrName, value, line));
      } else {
        forwarded := None;
      }
    }

    /** One append a handler makes through the result collector, which shares the buffers. */
    method CollectorAppend(e: Emission)
      modifies this
      ensures State() == Collect(old(State()), e)
      ensures tagHandlerFactory == old(tagHandlerFactory) && smap == old(smap)
    {
      match e.region
      case Declarations =>
        declarations := declarations + e.text + "\n";
        declarationLines := declarationLines + [e.sourceLine];
      case LocalDeclarations =>
        localDeclarations := localDeclarations + e.text + "\n";
        localDeclarationLines := localDeclarationLines + [e.sourceLine];
      case Content =>
        content := content + e.text + "\n";
        contentLines := contentLines + [e.sourceLine];
    }

    /** endTag: the current handler's processEndTag appends its lines; an IOException it
        throws afterwards is caught here, and the current handler is not cleared. */
    method EndTag(end: bool, production: Production, line: int)
      modifies this
      ensures State() == Step(old(State()), Event.EndTag(end, production, line), FactoryOf(tagHandlerFactory))
      ensures currentTagHandler == old(currentTagHandler)
      ensures tagHandlerFactory == old(tagHandlerFactory) && smap == old(smap)
    {
      if currentTagHandler.Some? {
        ghost var start := State();
        var es := production.emissions;
        for i := 0 to |es|
          invariant State() == CollectAll(start, es[..i])
          invariant tagHandlerFactory == old(tagHandlerFactory) && smap == old(smap)
        {
          assert es[..i + 1][..i] == es[..i];
          CollectorAppend(es[i]);
        }
        assert es[..|es|] == es;
        CollectAllKeepsHandler(start, es);
        if production.throwsIOException {
          // the exception is reported by printStackTrace and goes no further
        }
      }
    }

    /** java(ch, java, line): split at line breaks, each line to the declarations when
        `ch` is '!' and to the content otherwise, provenance counting up from `line`. */
    method Java(ch: char, java: string, line: int)
      modifies this
      ensures State() == JavaStep(old(State()), ch, java, line)
      ensures tagHandlerFactory == old(tagHandlerFactory) && smap == old(smap)
    {
      ghost var start := State();
      var out, ln := JavaCompleteLines(ch, java, line);
      JavaStepLines(start, ch, java, line);
      if |out| > 0 {
        JavaLine(ch, out, ln);
        JavaLinesSnoc(start, ch, Complete(java, '\n'), out, line);
      } else {
        assert Complete(java, '\n') + [] == Complete(java, '\n');
      }
    }

    /** The complete lines of java; returns the unterminated remainder and the next line number. */
    method JavaCompleteLines(ch: char, java: string, line: int) returns (out: string, ln: int)
      modifies this
      ensures State() == JavaLines(old(State()), ch, Complete(java, '\n'), line)
      ensures out == Tail(java, '\n') && ln == line + |Complete(java, '\n')|
      ensures tagHandlerFactory == old(tagHandlerFactory) && smap == old(smap)
    {
      ghost var start := State();
      var i := 0;
      out := "";
      ln := line;
      while i < |java|
        invariant 0 <= i <= |java|
        invariant out == Tail(java[..i], '\n')
        invariant ln == line + |Complete(java[..i], '\n')|
        invariant State() == JavaLines(start, ch, Complete(java[..i], '\n'), line)
        invariant tagHandlerFactory == old(tagHandlerFactory) && smap == old(smap)
      {
        var c := java[i];
        ghost var done := Complete(java[..i], '\n');
        assert java[..i + 1] == java[..i] + [c];
        Advance(java[..i], c, '\n');
        i := i + 1;
        if c == '\n' {
          JavaLine(ch, out, ln);
          JavaLinesSnoc(start, ch, done, out, line);
          ln := ln + 1;
          out := "";
        } else {
          out := out + [c];
        }
      }
      assert java[..i] == java;
    }

    /** One line of java, with its line break and its number, into the region `ch` selects. */
    method JavaLine(ch: char, p: string, ln: int)
      modifies this
      ensures State() == JavaLines(old(State()), ch, [p], ln)
      ensures tagHandlerFactory == old(tagHandlerFactory) && smap == old(smap)
    {
      assert Terminated([p], '\n') == p + "\n";
      if ch == '!' {
        declarations := declarations + p + "\n";
        declarationLines := declarationLines + [ln];
      } else {
        content := content + p + "\n";
        contentLines := contentLines + [ln];
      }
    }

    /** text(t, line): each complete line becomes a println statement and a non-empty
        last partial line a print statement, in the content only. */
    method Text(t: string, line: int)
      modifies this
      ensures State() == TextStep(old(State()), t, line)
      ensures tagHandlerFactory == old(tagHandlerFactory) && smap == old(smap)
    {
      ghost var start := State();
      var i := 0;
      var out := "";
      var ln := line;
      while i < |t|
        invariant 0 <= i <= |t|
        invariant out == Tail(t[..i], '\n')
        invariant ln == line + |Complete(t[..i], '\n')|
        invariant State() == TextLines(start, Complete(t[..i], '\n'), line)
        invariant tagHandlerFactory == old(tagHandlerFactory) && smap == old(smap)
      {
        var c := t[i];
        ghost var done := Complete(t[..i], '\n');
        assert t[..i + 1] == t[..i] + [c];
        Advance(t[..i], c, '\n');
        i := i + 1;
        if c == '\n' {
          TextLinesSnoc(start, done, out, line);
          content := content + PrintlnStatement(out);
          contentLines := contentLines + [ln];
          ln := ln + 1;
          out := "";
        } else {
          out := out + [c];
        }
      }
      assert t[..i] == t;
      TextStepLines(start, t, line);
      if |out| > 0 {
        content := content + PrintStatement(out);
        contentLines := contentLines + [ln];
      }
    }

    /** resetTranslator: all buffers and lists emptied in place; the current handler stays. */
    method ResetTranslator()
      modifies this
      ensures State() == Reset(old(State()))
      ensures tagHandlerFactory == old(tagHandlerFactory) && smap == old(smap)
    {
      declarations := "";
      content := "";
      localDeclarations := "";
      localDeclarationLines := [];
      contentLines := [];
      declarationLines := [];
    }

    /** One callback of the parser to this translator. */
    method Callback(e: Event)
      requires e.StartTag? ==> tagHandlerFactory.Some?
      modifies this
      ensures State() == Step(old(State()), e, FactoryOf(tagHandlerFactory))
      ensures tagHandlerFactory == old(tagHandlerFactory) && smap == old(smap)
    {
      match e
      case StartTag(isEndTag, name) => StartTag(isEndTag, name, 0);
      case TagAttribute(attrName, value, line) => var _ := TagAttribute(attrName, value, 0, 0, line);
      case EndTag(selfClosing, production, line) => EndTag(selfClosing, production, line);
      case Java(ch, text, line) => Java(ch, text, line);
      case Text(t, line) => Text(t, line);
    }

    /** translate: reset, let the parser make its callbacks, then assemble the unit and fill
        the source map. The result depends only on `events` and `name`, never on an
        earlier call (see JspSession.TranslationIsolated). */
    method Translate(events: seq<Event>, name: string) returns (result: string)
      requires HasStartTag(events) ==> tagHandlerFactory.Some?
      modifies this
      ensures State() == Run(Reset(old(State())), events, FactoryOf(tagHandlerFactory))
      ensures result == Generated(name, State())
      ensures smap != null && fresh(smap) && smap[..] == SourceMap(State())
      ensures tagHandlerFactory == old(tagHandlerFactory)
    {
      ResetTranslator();
      ghost var start := State();
      ghost var f := FactoryOf(tagHandlerFactory);
      assert WellFormed(start);
      for i := 0 to |events|
        invariant State() == Run(start, events[..i], f)
        invariant tagHandlerFactory == old(tagHandlerFactory)
      {
        if events[i].StartTag? {
          assert HasStartTag(events);
        }
        RunExtend(start, events, i, f);
        Callback(events[i]);
      }
      assert events[..|events|] == events;
      RunWellFormed(start, events, f);
      result := AssembleUnit(name);
    }

    /** The second half of translate: the unit text, and fSmap filled line by line. */
    method AssembleUnit(name: string) returns (result: string)
      requires WellFormed(State())
      modifies this
      ensures State() == old(State()) && tagHandlerFactory == old(tagHandlerFactory)
      ensures result == Generated(name, State())
      ensures smap != null && fresh(smap) && smap[..] == SourceMap(State())
    {
      result := UnitText(name);
      smap := FillSourceMap(State());
    }

    /** The unit text: header, declarations, a blank line, the body opening, the local
        declarations when there are any, the content and the two closings. */
    method UnitText(name: string) returns (buffer: string)
      ensures buffer == Generated(name, State())
    {
      buffer := "";
      buffer := buffer + Header(name);
      buffer := buffer + declarations + "\n";
      buffer := buffer + BodyOpen;
      if |localDeclarations| > 0 {
        buffer := buffer + localDeclarations;
      }
      buffer := buffer + content;
      buffer := buffer + BodyClose;
      buffer := buffer + UnitClose;
    }

    /** getSmap: the source map of the last translate, null before the first. */
    method GetSmap() returns (map_: array?<int>)
      ensures map_ == smap
    {
      map_ := smap;
    }

    /** backTranslateOffsetInLine: the handler is looked up by tag name when one is given,
        by the original line otherwise; -1 when none is found, else the handler's answer. */
    function BackTranslateOffsetInLine(originalLine: string, translatedLine: string, offsetInTranslatedLine: int,
                                       tag: Option<string>, offsetInLine: (Handler, string, string, int) -> int): (r: int)
      requires tagHandlerFactory.Some?
      reads this
      ensures var f := tagHandlerFactory.value;
        var h := if tag.Some? then f.getHandler(tag.value) else f.findHandler(originalLine);
        && (h.None? ==> r == -1)
        && (h.Some? ==> r == offsetInLine(h.value, originalLine, translatedLine, offsetInTranslatedLine))
    {
      var handler := if tag.Some? then tagHandlerFactory.value.getHandler(tag.value)
                     else tagHandlerFactory.value.findHandler(originalLine);
      if handler.Some? then offsetInLine(handler.value, originalLine, translatedLine, offsetInTranslatedLine)
      else -1
    }
  }
}
