# JSP translation, proposal labels, import order and semantic tokens — a Dafny model

This project models four pieces of the Eclipse JDT UI code and proves properties of them.

- **The JSP-to-Java translator** (`JspTranslator`). The JSP parser calls it back for every
  tag, attribute, Java fragment and template text. It sorts the Java lines into three
  buffers: declarations, local declarations and content. Template text becomes
  `System.out.println`/`print` statements. Beside each buffer it keeps a list with the
  JSP line each generated line came from. `translate` wraps the buffers in a fixed class
  skeleton and fills the source map `fSmap` (generated line → JSP line).
- **Labels and image adornments for content-assist proposals** (`ProposalLabelProvider`).
- **The codec of the import-order preference** (`ImportOrganizePreferencePage`). A list of
  package prefixes is stored as one `;`-separated string. The page also defines the
  on-demand threshold rule and the validator of a new entry.
- **The lazily filled binding/root cache of a semantic highlighting token** (`SemanticToken`).

Modules:

- `Wrappers`: `Option` (a Java reference that may be null) and `Result` (an operation that may end in a runtime exception).
- `Strings`: character counts, terminated lists and joined lists.
- `Splitting`: splitting at a separator the way a left-to-right character loop does, and the tokens a `StringTokenizer` yields.
- `JspSession`: a functional reference model of one translator session, with the proofs about it.
- `JspTranslation`: the translator as a class whose fields change in place, each method proved to follow `JspSession`.
- `ProposalLabels`, `ImportOrder`, `SemanticTokens`.

The parser is modelled as the sequence of callbacks it makes (`JspSession.Event`). The tag
handler factory is two functions from a name or a line to an optional handler. A handler's
end-tag work is the list of lines it appends through the result collector (`Production`),
together with whether it then throws an `IOException`. The collector shares the
translator's buffers (source line 53). Its own code is not part of this model: it is modelled
as appending one whole line and its provenance per call.
So every region keeps as many line breaks as provenance entries (`JspSession.WellFormed`).
Line 182 tests the buffer's length while lines 160 and 185 use the list's size; this
invariant is what makes those agree.

Behaviour the model follows from the code, which a reader might not expect:

- `fSmap[0]`, `fSmap[1]` and `fSmap[2]` are always 1.
- The blank line after the declarations and the `out()` line map to one more than the entry
  before each. They can therefore point past the last JSP line:
  `JspSession.EmptyDocumentSourceMap` gives `[1, 1, 1, 2, 3, 3, 3]` for an empty document.
- The closing `}` copies the entry two before it, which holds the same value as the entry before.
- Neither `endTag` nor `resetTranslator` clears the current tag handler. An end tag that
  comes before any start tag in a new translation is therefore handled by the previous
  translation's last handler. `JspSession.TranslationIsolated` proves that output is
  independent of earlier calls when every end tag follows a start tag, and
  `JspSession.TranslationLeaks` exhibits the dependence for a single end tag whose
  handler appends one line.
- `translate` writes the class name into the first line as given. A name holding a line
  break adds generated lines that `fSmap` has no entry for, so the lemmas relating the
  generated lines to `fSmap` (`GeneratedLines`, `SourceMapSize` and the three
  `…Provenance` lemmas) assume a name without a line break.
- `findHandler` is given the original line.

## Model

| member | source | states |
|---|---|---|
| Splitting.Advance | org.eclipse.jdt.ui.examples.javafamily/src/org/eclipse/jsp/JspTranslator.java:97-110 | reading one more character: a line break closes the current piece, any other character extends it |
| Splitting.PiecesRoundTrip | org.eclipse.jdt.ui.examples.javafamily/src/org/eclipse/jsp/JspTranslator.java:94-120 | the pieces of a fragment, each with a line break, rebuild the fragment (plus one line break when it does not end with one) |
| Splitting.PiecesCount | org.eclipse.jdt.ui.examples.javafamily/src/org/eclipse/jsp/JspTranslator.java:112-120 | a fragment has one piece per line break, plus one for a non-empty remainder |
| Splitting.PiecesFree | org.eclipse.jdt.ui.examples.javafamily/src/org/eclipse/jsp/JspTranslator.java:97-110 | no piece contains a line break |
| JspSession.Reset | org.eclipse.jdt.ui.examples.javafamily/src/org/eclipse/jsp/JspTranslator.java:142-151 | every buffer and provenance list is emptied; the current handler is kept |
| JspSession.JavaStepWellFormed | org.eclipse.jdt.ui.examples.javafamily/src/org/eclipse/jsp/JspTranslator.java:94-121 | java keeps every region's line count equal to its list size and adds one entry per line break plus one for a non-empty remainder |
| JspSession.TextStatementsLines | org.eclipse.jdt.ui.examples.javafamily/src/org/eclipse/jsp/JspTranslator.java:123-140 | text produces one newline-terminated statement per piece of the text |
| JspSession.TextStepWellFormed | org.eclipse.jdt.ui.examples.javafamily/src/org/eclipse/jsp/JspTranslator.java:123-140 | text keeps the invariant, adds one content entry per piece and leaves declarations and local declarations unchanged |
| JspSession.CollectAllWellFormed | org.eclipse.jdt.ui.examples.javafamily/src/org/eclipse/jsp/JspTranslator.java:77-85 | a handler's appends through the collector keep the invariant and never change the current handler |
| JspSession.CollectAllKeepsHandler | org.eclipse.jdt.ui.examples.javafamily/src/org/eclipse/jsp/JspTranslator.java:77-85 | endTag does not clear or change the current handler |
| JspSession.RunWellFormed | org.eclipse.jdt.ui.examples.javafamily/src/org/eclipse/jsp/JspTranslator.java:153-158 | after any sequence of parser callbacks from a well-formed session the session is well formed |
| JspSession.RunIgnoresFactory | org.eclipse.jdt.ui.examples.javafamily/src/org/eclipse/jsp/JspTranslator.java:56-58 | only start tags consult the handler factory |
| JspSession.TranslationIsolated | org.eclipse.jdt.ui.examples.javafamily/src/org/eclipse/jsp/JspTranslator.java:142-158 | when every end tag follows a start tag, the generated text and the source map do not depend on anything an earlier translate left behind |
| JspSession.TranslationLeaks | org.eclipse.jdt.ui.examples.javafamily/src/org/eclipse/jsp/JspTranslator.java:77-85 | an end tag before any start tag, after a translate that left a handler current, appends that handler's line: text and map differ from those of a translator with no handler, and the events break the condition TranslationIsolated assumes |
| JspSession.OutputsAgree | org.eclipse.jdt.ui.examples.javafamily/src/org/eclipse/jsp/JspTranslator.java:155-204 | the generated text and the source map read only the three buffers and their line lists, never the current tag handler |
| JspSession.SourceMapLength | org.eclipse.jdt.ui.examples.javafamily/src/org/eclipse/jsp/JspTranslator.java:160-161 | fSmap has D + L + C + 7 entries |
| JspSession.SourceMapLayout | org.eclipse.jdt.ui.examples.javafamily/src/org/eclipse/jsp/JspTranslator.java:160-204 | entries 0-2 are 1; then the declaration lines; blank and out() lines are previous + 1; then local lines (only when the local buffer is non-empty) and content lines; the two closings copy the last written entry |
| JspSession.GeneratedLines | org.eclipse.jdt.ui.examples.javafamily/src/org/eclipse/jsp/JspTranslator.java:165-203 | the generated text's lines are the header, a blank line, the declarations, a blank line, the out() line, the local declarations, the content and the two closing braces |
| JspSession.SourceMapSize | org.eclipse.jdt.ui.examples.javafamily/src/org/eclipse/jsp/JspTranslator.java:160-204 | fSmap has exactly one entry more than the generated text has lines, so no index is left out or overrun |
| JspSession.DeclarationProvenance | org.eclipse.jdt.ui.examples.javafamily/src/org/eclipse/jsp/JspTranslator.java:169-174 | generated declaration line j is declaration line j, and its map entry is that line's provenance |
| JspSession.LocalDeclarationProvenance | org.eclipse.jdt.ui.examples.javafamily/src/org/eclipse/jsp/JspTranslator.java:182-189 | generated local declaration line j is local line j and maps to its provenance |
| JspSession.ContentProvenance | org.eclipse.jdt.ui.examples.javafamily/src/org/eclipse/jsp/JspTranslator.java:191-196 | generated content line j is content line j and maps to its provenance |
| JspSession.SourceMapBounds | org.eclipse.jdt.ui.examples.javafamily/src/org/eclipse/jsp/JspTranslator.java:175-204 | when every provenance entry lies in 1..max, every map entry lies in 1..max + 2 |
| JspSession.EmptyDocumentSourceMap | org.eclipse.jdt.ui.examples.javafamily/src/org/eclipse/jsp/JspTranslator.java:160-204 | an empty document's map is [1, 1, 1, 2, 3, 3, 3] |
| JspTranslation.CopyLines | org.eclipse.jdt.ui.examples.javafamily/src/org/eclipse/jsp/JspTranslator.java:171-174 | one of translate's copying loops writes the list, in order, from the moving index, keeping the entries before and after it |
| JspTranslation.OpenSourceMap | org.eclipse.jdt.ui.examples.javafamily/src/org/eclipse/jsp/JspTranslator.java:162-180 | the first entries: three 1s, the declaration lines, then previous + 1 twice |
| JspTranslation.CloseSourceMap | org.eclipse.jdt.ui.examples.javafamily/src/org/eclipse/jsp/JspTranslator.java:198-204 | both closing lines take the entry of the last line written before them |
| JspTranslation.FillSourceMap | org.eclipse.jdt.ui.examples.javafamily/src/org/eclipse/jsp/JspTranslator.java:160-204 | the array filled through the moving index equals the reference source map |
| JspTranslation.FillBody | org.eclipse.jdt.ui.examples.javafamily/src/org/eclipse/jsp/JspTranslator.java:182-196 | after the first D + 5 entries come the local declaration lines (present only when the local buffer is non-empty) and then the content lines; the next index is two before the end |
| JspSession.SourceMapJoin | org.eclipse.jdt.ui.examples.javafamily/src/org/eclipse/jsp/JspTranslator.java:160-204 | fSmap is the front part, the local and content lists, then twice the last entry written before the closings |
| JspSession.SourceMapSections | org.eclipse.jdt.ui.examples.javafamily/src/org/eclipse/jsp/JspTranslator.java:160-204 | the first D + 5 entries are 1, 1, 1, the declaration lines and two entries counting on by one; then the local slice, the content slice, and two copies of the last body entry |
| JspTranslation.JspTranslator.constructor | org.eclipse.jdt.ui.examples.javafamily/src/org/eclipse/jsp/JspTranslator.java:32-54 | buffers and lists start empty, with no source map, factory or handler |
| JspTranslation.JspTranslator.SetTagHandlerFactory | org.eclipse.jdt.ui.examples.javafamily/src/org/eclipse/jsp/JspTranslator.java:221-223 | sets the factory and changes nothing else |
| JspTranslation.JspTranslator.StartTag | org.eclipse.jdt.ui.examples.javafamily/src/org/eclipse/jsp/JspTranslator.java:56-58 | the current handler becomes the factory's handler for the tag name |
| JspTranslation.JspTranslator.TagAttribute | org.eclipse.jdt.ui.examples.javafamily/src/org/eclipse/jsp/JspTranslator.java:68-71 | an attribute is forwarded, with its line, exactly when there is a current handler |
| JspTranslation.JspTranslator.CollectorAppend | org.eclipse.jdt.ui.examples.javafamily/src/org/eclipse/jsp/JspTranslator.java:53 | one collector append adds the line and its provenance to the chosen region |
| JspTranslation.JspTranslator.EndTag | org.eclipse.jdt.ui.examples.javafamily/src/org/eclipse/jsp/JspTranslator.java:77-85 | the current handler's appends take effect, a thrown IOException goes no further, and the handler stays |
| JspTranslation.JspTranslator.Java | org.eclipse.jdt.ui.examples.javafamily/src/org/eclipse/jsp/JspTranslator.java:94-121 | the character loop appends each piece with a line break to the declarations iff ch is '!', else to the content, numbered line, line + 1, … |
| JspTranslation.JspTranslator.JavaCompleteLines | org.eclipse.jdt.ui.examples.javafamily/src/org/eclipse/jsp/JspTranslator.java:95-111 | the loop appends every line-break-closed piece to the region ch selects, numbered from line, and leaves the unterminated remainder and the next number |
| JspTranslation.JspTranslator.JavaLine | org.eclipse.jdt.ui.examples.javafamily/src/org/eclipse/jsp/JspTranslator.java:100-106 | one piece goes, with a line break, into the declarations with its number when ch is '!', else into the content |
| JspTranslation.JspTranslator.Text | org.eclipse.jdt.ui.examples.javafamily/src/org/eclipse/jsp/JspTranslator.java:123-140 | the character loop appends a println statement per complete line and a print statement for a non-empty remainder, to the content only |
| JspTranslation.JspTranslator.ResetTranslator | org.eclipse.jdt.ui.examples.javafamily/src/org/eclipse/jsp/JspTranslator.java:142-151 | empties all buffers and lists in place |
| JspTranslation.JspTranslator.Callback | org.eclipse.jdt.ui.examples.javafamily/src/org/eclipse/jsp/JspTranslator.java:158 | each parser callback updates the translator as the reference step does |
| JspTranslation.JspTranslator.Translate | org.eclipse.jdt.ui.examples.javafamily/src/org/eclipse/jsp/JspTranslator.java:153-212 | resets, runs the callbacks, returns the generated text and leaves a fresh fSmap equal to the reference source map |
| JspTranslation.JspTranslator.AssembleUnit | org.eclipse.jdt.ui.examples.javafamily/src/org/eclipse/jsp/JspTranslator.java:155-211 | the returned text is the class skeleton around the buffers (the locals only when non-empty), and fSmap is the reference map |
| JspTranslation.JspTranslator.UnitText | org.eclipse.jdt.ui.examples.javafamily/src/org/eclipse/jsp/JspTranslator.java:165-203 | the text is the class header, the declarations and a blank line, the out() opening, the locals when non-empty, the content, and the two closings |
| JspTranslation.JspTranslator.GetSmap | org.eclipse.jdt.ui.examples.javafamily/src/org/eclipse/jsp/JspTranslator.java:214-216 | returns the current source map |
| JspTranslation.JspTranslator.BackTranslateOffsetInLine | org.eclipse.jdt.ui.examples.javafamily/src/org/eclipse/jsp/JspTranslator.java:228-240 | looks the handler up by tag when given, else by the original line; -1 without a handler, else the handler's answer unchanged |
| Strings.CountJoin | org.eclipse.jdt.ui/ui/org/eclipse/jdt/internal/ui/text/java/ProposalLabelProvider.java:126-129 | exactly one separator between items |
| Strings.JoinEnds | org.eclipse.jdt.ui/ui/org/eclipse/jdt/internal/ui/text/java/ProposalLabelProvider.java:124-136 | nothing before the first item or after the last |
| ProposalLabels.AppendParameterSignature | org.eclipse.jdt.ui/ui/org/eclipse/jdt/internal/ui/text/java/ProposalLabelProvider.java:123-138 | a null types array leaves the buffer unchanged; otherwise the types, each followed by " name" when its name is present, separated by ", " |
| ProposalLabels.AppendParameter | org.eclipse.jdt.ui/ui/org/eclipse/jdt/internal/ui/text/java/ProposalLabelProvider.java:126-134 | one iteration appends ", " unless it is the first parameter, then the type, then " name" when the name is present |
| ProposalLabels.NamesAbsent | org.eclipse.jdt.ui/ui/org/eclipse/jdt/internal/ui/text/java/ProposalLabelProvider.java:131-134 | with no names array, or only null names, the list is the types alone |
| ProposalLabels.ParameterSignatureEnds | org.eclipse.jdt.ui/ui/org/eclipse/jdt/internal/ui/text/java/ProposalLabelProvider.java:124-136 | the list starts with the first parameter and ends with the last |
| ProposalLabels.ParameterSignatureCommas | org.eclipse.jdt.ui/ui/org/eclipse/jdt/internal/ui/text/java/ProposalLabelProvider.java:126-129 | n comma-free parameters give exactly n - 1 commas |
| ProposalLabels.AppendUnboundedParameterList | org.eclipse.jdt.ui/ui/org/eclipse/jdt/internal/ui/text/java/ProposalLabelProvider.java:68-78 | the types array is overwritten in place with display names, then appended with the names |
| ProposalLabels.CreateUnboundedParameterList | org.eclipse.jdt.ui/ui/org/eclipse/jdt/internal/ui/text/java/ProposalLabelProvider.java:55-58 | the list alone for a method reference, an assertion failure for any other kind |
| ProposalLabels.DeclaringTypeFQN | org.eclipse.jdt.ui/ui/org/eclipse/jdt/internal/ui/text/java/ProposalLabelProvider.java:218-225 | a null declaration signature gives java.lang.Object; any other is stripped to its qualified name |
| ProposalLabels.CreateMethodProposalLabel | org.eclipse.jdt.ui/ui/org/eclipse/jdt/internal/ui/text/java/ProposalLabelProvider.java:160-183 | the step-by-step buffer gives name + "(" + parameters + ")  " + return type + " - " + declaring type |
| ProposalLabels.CreateOverrideMethodProposalLabel | org.eclipse.jdt.ui/ui/org/eclipse/jdt/internal/ui/text/java/ProposalLabelProvider.java:185-209 | as the method label, with the declaring type put into the overriding message |
| ProposalLabels.MethodLabelEnds | org.eclipse.jdt.ui/ui/org/eclipse/jdt/internal/ui/text/java/ProposalLabelProvider.java:160-182 | a method label begins with the name and "(" and ends with " - " and the declaring type's simple name |
| ProposalLabels.ArrayMethodLabel | org.eclipse.jdt.ui/ui/org/eclipse/jdt/internal/ui/text/java/ProposalLabelProvider.java:218-224 | a method with no declaring type is labelled as declared by Object |
| ProposalLabels.MethodLabelCommas | org.eclipse.jdt.ui/ui/org/eclipse/jdt/internal/ui/text/java/ProposalLabelProvider.java:160-182 | when only parameters separate with commas, a method label has one comma between consecutive parameters and no other |
| ProposalLabels.SuffixedShape | org.eclipse.jdt.ui/ui/org/eclipse/jdt/internal/ui/text/java/ProposalLabelProvider.java:250-253 | a suffix is added, with its separator, exactly when it is non-empty |
| ProposalLabels.TypeLabel | org.eclipse.jdt.ui/ui/org/eclipse/jdt/internal/ui/text/java/ProposalLabelProvider.java:243-255 | the type name, and " - " + package exactly when the package is non-empty |
| ProposalLabels.SimpleLabelWithType | org.eclipse.jdt.ui/ui/org/eclipse/jdt/internal/ui/text/java/ProposalLabelProvider.java:257-266 | the completion, and four spaces + type name exactly when the type name is non-empty |
| ProposalLabels.LabelWithTypeAndDeclaration | org.eclipse.jdt.ui/ui/org/eclipse/jdt/internal/ui/text/java/ProposalLabelProvider.java:268-286 | the simple label with type, and " - " + declaration name exactly when the declaration is non-null and its simple name non-empty |
| ProposalLabels.PackageLabel | org.eclipse.jdt.ui/ui/org/eclipse/jdt/internal/ui/text/java/ProposalLabelProvider.java:288-291 | the declaration signature for a package reference; an assertion failure for other kinds, a null pointer for a null signature |
| ProposalLabels.CreateAnonymousTypeLabel | org.eclipse.jdt.ui/ui/org/eclipse/jdt/internal/ui/text/java/ProposalLabelProvider.java:297-309 | the simple name of the declaring type + "(" + parameters + ")" + two spaces + the anonymous-type message; a non-null signature always gives a label that starts with its simple name and "("; it fails exactly when the signature is null and `Signature.getSignatureSimpleName` throws on null |
| ProposalLabels.CreateLabel | org.eclipse.jdt.ui/ui/org/eclipse/jdt/internal/ui/text/java/ProposalLabelProvider.java:317-344 | each of the 13 kinds goes to its builder, keyword and label references to the completion, any other kind fails the assertion |
| ProposalLabels.CreateLabelFails | org.eclipse.jdt.ui/ui/org/eclipse/jdt/internal/ui/text/java/ProposalLabelProvider.java:317-344 | the label request fails exactly for an unlisted kind, for a package proposal with a null declaration, or for an anonymous-class proposal with a null declaration that `Signature.getSignatureSimpleName` refuses |
| ProposalLabels.Adornments | org.eclipse.jdt.ui/ui/org/eclipse/jdt/internal/ui/text/java/ProposalLabelProvider.java:424-447 | DEPRECATED iff deprecated; STATIC iff static and a field or method kind; FINAL iff final; SYNCHRONIZED iff synchronized and a method kind; ABSTRACT iff abstract and not an interface; no other bit |
| ProposalLabels.DecorateImageDescriptor | org.eclipse.jdt.ui/ui/org/eclipse/jdt/internal/ui/text/java/ProposalLabelProvider.java:424-447 | the accumulated adornments are those, on the given base image |
| ProposalLabels.ImageDescriptor | org.eclipse.jdt.ui/ui/org/eclipse/jdt/internal/ui/text/java/ProposalLabelProvider.java:352-390 | null exactly for keyword and label references, an assertion failure exactly for an unlisted kind; method kinds get the method image, anonymous class declarations and type references the type image, field references the field image, local variables and variable declarations the local-variable image, package references the package image, each carrying Adornments(kind, flags) |
| ImportOrder.StringTokenizer.constructor | org.eclipse.jdt.ui/ui/org/eclipse/jdt/internal/ui/preferences/ImportOrganizePreferencePage.java:76 | a tokenizer yields the non-empty ';'-free runs of its string |
| ImportOrder.StringTokenizer.NextToken | org.eclipse.jdt.ui/ui/org/eclipse/jdt/internal/ui/preferences/ImportOrganizePreferencePage.java:127 | gives the next token and moves past it |
| ImportOrder.CreateList | org.eclipse.jdt.ui/ui/org/eclipse/jdt/internal/ui/preferences/ImportOrganizePreferencePage.java:42-49 | every item followed by ';', the last included; "" for no items |
| ImportOrder.ParseString | org.eclipse.jdt.ui/ui/org/eclipse/jdt/internal/ui/preferences/ImportOrganizePreferencePage.java:75-82 | the tokenizer loop collects exactly the tokens, in order, empty ones dropped |
| ImportOrder.GetImportOrderPreference | org.eclipse.jdt.ui/ui/org/eclipse/jdt/internal/ui/preferences/ImportOrganizePreferencePage.java:117-133 | a fresh array of countTokens entries holding the tokens in order; empty for a null string |
| ImportOrder.ParseCreatedList | org.eclipse.jdt.ui/ui/org/eclipse/jdt/internal/ui/preferences/ImportOrganizePreferencePage.java:42-82 | reading a written list back gives the list when no item is empty or holds ';' |
| ImportOrder.ParseCreateParse | org.eclipse.jdt.ui/ui/org/eclipse/jdt/internal/ui/preferences/ImportOrganizePreferencePage.java:42-82 | reading, writing and reading again changes nothing |
| Splitting.TokensWellFormed | org.eclipse.jdt.ui/ui/org/eclipse/jdt/internal/ui/preferences/ImportOrganizePreferencePage.java:75-82 | every token is non-empty and free of ';' |
| Splitting.TokensTrailing | org.eclipse.jdt.ui/ui/org/eclipse/jdt/internal/ui/preferences/ImportOrganizePreferencePage.java:75-82 | a trailing ';' adds no token |
| ImportOrder.DefaultImportOrderTokens | org.eclipse.jdt.ui/ui/org/eclipse/jdt/internal/ui/preferences/ImportOrganizePreferencePage.java:112-115 | the default "java;javax;com" reads as java, javax, com |
| ImportOrder.ImportNumberThreshold | org.eclipse.jdt.ui/ui/org/eclipse/jdt/internal/ui/preferences/ImportOrganizePreferencePage.java:135-142 | 0 becomes Integer.MAX_VALUE, every other value is returned unchanged, so the result is never 0 |
| ImportOrder.ThresholdIdempotent | org.eclipse.jdt.ui/ui/org/eclipse/jdt/internal/ui/preferences/ImportOrganizePreferencePage.java:137-141 | applying the mapping twice is applying it once |
| ImportOrder.DefaultThresholdKept | org.eclipse.jdt.ui/ui/org/eclipse/jdt/internal/ui/preferences/ImportOrganizePreferencePage.java:114 | the default on-demand threshold 99 is read back as 99, a real limit |
| ImportOrder.IsValid | org.eclipse.jdt.ui/ui/org/eclipse/jdt/internal/ui/preferences/ImportOrganizePreferencePage.java:57-65 | null iff the package name is valid; otherwise the error message for non-empty text and "" for empty text |
| ImportOrder.ValidatorCases | org.eclipse.jdt.ui/ui/org/eclipse/jdt/internal/ui/preferences/ImportOrganizePreferencePage.java:57-65 | with a non-empty error message the answer tells empty text from invalid text |
| SemanticTokens.SemanticToken.constructor | org.eclipse.jdt.ui/ui/org/eclipse/jdt/internal/ui/javaeditor/SemanticToken.java:24-30 | a new token has no node, binding or root |
| SemanticTokens.SemanticToken.GetBinding | org.eclipse.jdt.ui/ui/org/eclipse/jdt/internal/ui/javaeditor/SemanticToken.java:35-40 | a cached binding is returned without resolving; with no node null; otherwise the node is resolved once and the result cached; a coherent cache answers what resolving the node gives |
| SemanticTokens.SemanticToken.GetNode | org.eclipse.jdt.ui/ui/org/eclipse/jdt/internal/ui/javaeditor/SemanticToken.java:45-47 | returns the node |
| SemanticTokens.SemanticToken.GetRoot | org.eclipse.jdt.ui/ui/org/eclipse/jdt/internal/ui/javaeditor/SemanticToken.java:52-57 | a cached root is returned unchanged; otherwise the node's root is computed once and cached; with neither, a null pointer |
| SemanticTokens.SemanticToken.Update | org.eclipse.jdt.ui/ui/org/eclipse/jdt/internal/ui/javaeditor/SemanticToken.java:67-71 | the node becomes the argument and the cached binding and root are dropped |
| SemanticTokens.SemanticToken.Clear | org.eclipse.jdt.ui/ui/org/eclipse/jdt/internal/ui/javaeditor/SemanticToken.java:79-83 | node, binding and root all become null |

## Left out

- `AbstractJspParser.parse` is not part of this model. The parser is the sequence of callbacks it makes. The reader, and the `IOException` parsing may throw, are left out.
- `Jsp2JavaTagHandlerFactory`, the `ITagHandler` implementations and `JspTranslatorResultCollector` are not part of this model. A handler is an opaque identity, the factory is two functions, and a handler's end-tag output is the list of lines it appends.
- JspTranslation.JspTranslator.TagAttribute: returns the `addAttribute` call it would make instead of calling into a handler, because the handlers are not part of this model.
- JspTranslation.JspTranslator.StartTag, Translate and BackTranslateOffsetInLine: require a factory to have been set, because `startTag` and `backTranslateOffsetInLine` dereference a null factory. `SetTagHandlerFactory` takes a factory, never null.
- All `DEBUG` branches and the `System.out.println` tracing in `translate` are left out: they only print.
- Line numbers and source-map entries are unbounded integers. Java `int` overflow of a line counter is not modelled.
- JspTranslation.JspTranslator.AssembleUnit: fills fSmap through `FillSourceMap` after building the text, not interleaved with it. The two are independent, so the result is the same.
- `Signature`, `SignatureUtil`, `JavaTextMessages`, `JavaElementImageProvider`, `JavaPluginImages` and `JavaElementImageDescriptor` construction are foreign. Their results enter through `SignatureOps` or as base images. What `Signature.getSignatureSimpleName` does with a null signature is not shown, so `SignatureOps.simpleNameOfNull` supplies it, a name or an exception, and the image size is not modelled.
- ProposalLabels.Adornments: the bit values are placeholders, distinct single bits. `JavaElementImageDescriptor` is not part of this model, and every statement holds for any distinct single bits.
- `createTypeDisplayName` is part of `SignatureOps.parameterDisplayName`. Its `useShortGenerics` rewriting loop is unreachable because the flag is always false.
- `createMethodImageDescriptor`, `createTypeImageDescriptor`, `createFieldImageDescriptor`, `createLocalImageDescriptor` and `createPackageImageDescriptor` are left out. Each only decorates one fixed base image, and `DecorateImageDescriptor` covers that.
- ProposalLabels.AppendParameterSignature: requires a names array at least as long as the types array, because a shorter one makes `appendParameterSignature` fail with an index out of bounds.
- The preference-page UI, the entry dialog, help wiring and the preference store are left out. Stored values are parameters, and `JavaConventions.validatePackageName` is a predicate parameter.
- `java.util.StringTokenizer` is modelled by the tokens it still has to yield. `hasMoreElements`/`nextElement` in `parseString` are its `hasMoreTokens`/`nextToken`.
- `initDefaults` writes to the store. Only the two default values are modelled.
- SemanticTokens.SemanticToken.GetRoot: does not model the cast to `CompilationUnit`. A root of another node type, and the `ClassCastException` it would cause, are left out.
- `resolveBinding` is a function of the node, and two ghost counters record when a resolution or a root lookup happens.
- `RefactoringCore`, `GenerateGroup` and `AnnotateAssistTest15` are left out: a singleton holder, a menu contribution and a UI integration test.
