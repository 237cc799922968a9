/** Outline-to-symbol conversion from
    `src/extension/providers/dart_document_symbol_provider.ts`.

    The model starts from an outline already obtained from the analysis server.
    The editor-side helpers (`getElementName`, `getSymbolKindForElementKind`,
    `getCodeOffset`, `toRange`) are not part of this model; they arrive as the
    fields of a `Host` value and are treated as uninterpreted functions. */
module DocumentSymbols {
  import opened Results
  import opened Seqs

  /** An offset/length pair in the document. */
  datatype Location = Location(offset: int, length: int)

  /** The analysis server's `Element`: the fields the conversion reads.
      `name` is read only through the host's `elementName` helper
      (`getElementName`), which is not part of this model. */
  datatype Element = Element(
    kind: string,
    name: string,
    flags: int,
    parameters: Option<string>,
    location: Option<Location>)

  /** The analysis server's `Outline` tree. The provider treats undefined
      `children` and an empty list alike, so both are the empty sequence here. */
  datatype Outline = Outline(
    element: Element,
    offset: int,
    length: int,
    codeOffset: int,
    codeLength: int,
    children: seq<Outline>)

  /** An editor position range. */
  datatype Range = Range(startLine: nat, startCharacter: nat, endLine: nat, endCharacter: nat)

  type SymbolKind = nat

  datatype SymbolTag = Deprecated

  /** The `children` field of a symbol: left as the constructor set it, or
      assigned a list. */
  datatype SymbolChildren = NotAssigned | Assigned(symbols: seq<DocumentSymbol>)

  /** A `DocumentSymbol`. `None` in `tags` means the field was left as the
      constructor set it. */
  datatype DocumentSymbol = DocumentSymbol(
    name: string,
    detail: string,
    kind: SymbolKind,
    range: Range,
    selectionRange: Range,
    tags: Option<seq<SymbolTag>>,
    children: SymbolChildren)

  /** The helpers the provider calls into, for one document. */
  datatype Host = Host(
    elementName: Element -> string,
    symbolKind: string -> SymbolKind,
    codeRange: Outline -> Range,
    toRange: (int, int) -> Range)

  /** `flags & 0x20` is non-zero: bit 5 of the two's-complement value, which
      is `floor(flags / 32)` modulo 2. */
  predicate IsDeprecated(flags: int) {
    (flags / 0x20) % 2 == 1
  }

  lemma Bit5OfUnsigned(u: int)
    requires 0 <= u < 0x1_0000_0000
    ensures IsDeprecated(u) <==> (u as bv32) & 0x20 != 0
  {
  }

  lemma Bit5Periodic(flags: int)
    requires -0x8000_0000 <= flags < 0x8000_0000
    ensures IsDeprecated(flags) == IsDeprecated(flags % 0x1_0000_0000)
  {
    if flags < 0 {
      var u := flags + 0x1_0000_0000;
      assert u == flags % 0x1_0000_0000;
      assert u / 0x20 == flags / 0x20 + 0x800_0000;
    }
  }

  /** For any 32-bit signed flags value, `IsDeprecated` is JavaScript's
      `flags & 0x20` (which first converts to a 32-bit integer). */
  lemma IsDeprecatedIsBitAnd(flags: int)
    requires -0x8000_0000 <= flags < 0x8000_0000
    ensures IsDeprecated(flags) <==> ((flags % 0x1_0000_0000) as bv32) & 0x20 != 0
  {
    Bit5Periodic(flags);
    Bit5OfUnsigned(flags % 0x1_0000_0000);
  }

  /** `shouldShow`: invocations are hidden (issue #656). */
  predicate ShouldShow(o: Outline) {
    !(o.element.kind == "CONSTRUCTOR_INVOCATION" || o.element.kind == "FUNCTION_INVOCATION")
  }

  function ShouldShowTest(): Outline -> bool {
    o => ShouldShow(o)
  }

  /** The children of a node that get symbols, in order. */
  function ShownChildren(o: Outline): (shown: seq<Outline>)
    ensures forall c :: c in shown ==> c in o.children && ShouldShow(c)
  {
    Filter(ShouldShowTest(), o.children)
  }

  /** Where the selection range comes from: the element's location, or else the
      outline node itself. */
  function SelectionLocation(o: Outline): (loc: Location)
    ensures o.element.location.Some? ==> loc == o.element.location.value
    ensures o.element.location.None? ==> loc == Location(o.offset, o.length)
  {
    match o.element.location
    case Some(l) => l
    case None => Location(o.offset, o.length)
  }

  /** `convertResult(document, outline)` */
  function ConvertResult(host: Host, o: Outline): (s: DocumentSymbol)
    ensures s.name == host.elementName(o.element)
    ensures s.kind == host.symbolKind(o.element.kind)
    ensures s.range == host.codeRange(o)
    ensures o.element.parameters.Some? ==> s.detail == o.element.parameters.value
    ensures o.element.parameters.None? ==> s.detail == ""
    ensures o.element.location.Some? ==>
              s.selectionRange == host.toRange(o.element.location.value.offset, o.element.location.value.length)
    ensures o.element.location.None? ==> s.selectionRange == host.toRange(o.offset, o.length)
    ensures s.tags == (if IsDeprecated(o.element.flags) then Some([Deprecated]) else None)
    ensures s.children.Assigned? <==> |o.children| > 0
    ensures s.children.Assigned? ==> |s.children.symbols| == |ShownChildren(o)|
    decreases o
  {
    var location := SelectionLocation(o);
    var children :=
      if |o.children| > 0 then
        var shown := ShownChildren(o);
        Assigned(seq(|shown|, i requires 0 <= i < |shown| =>
          assert shown[i] in o.children;
          ConvertResult(host, shown[i])))
      else
        NotAssigned;
    DocumentSymbol(
      host.elementName(o.element),
      if o.element.parameters.Some? then o.element.parameters.value else "",
      host.symbolKind(o.element.kind),
      host.codeRange(o),
      host.toRange(location.offset, location.length),
      if IsDeprecated(o.element.flags) then Some([Deprecated]) else None,
      children)
  }

  /** Converts each outline of a list, one symbol per outline, in order. */
  function ConvertAll(host: Host, outlines: seq<Outline>): (symbols: seq<DocumentSymbol>)
    ensures |symbols| == |outlines|
    ensures forall i :: 0 <= i < |outlines| ==> symbols[i] == ConvertResult(host, outlines[i])
  {
    seq(|outlines|, i requires 0 <= i < |outlines| => ConvertResult(host, outlines[i]))
  }

  /** `provideDocumentSymbols(document, token)` once the outline is known:
      `None` is the provider's `undefined`. */
  function ProvideDocumentSymbols(host: Host, cancellationRequested: bool, outline: Option<Outline>)
    : (r: Option<seq<DocumentSymbol>>)
    ensures r.None? <==> cancellationRequested || outline.None? || |outline.value.children| == 0
    ensures r.Some? ==> |r.value| == |outline.value.children|
  {
    if cancellationRequested || outline.None? || |outline.value.children| == 0 then None
    else Some(ConvertAll(host, outline.value.children))
  }

  /** No filter at the top level: every top-level child, invocations included,
      gets a symbol, in order. */
  lemma TopLevelIsNotFiltered(host: Host, outline: Outline, i: nat)
    requires |outline.children| > 0 && i < |outline.children|
    ensures ProvideDocumentSymbols(host, false, Some(outline)).Some?
    ensures ProvideDocumentSymbols(host, false, Some(outline)).value[i].name
         == host.elementName(outline.children[i].element)
    ensures ProvideDocumentSymbols(host, false, Some(outline)).value[i]
         == ConvertResult(host, outline.children[i])
  {
  }

  /** Below the top level, the symbols are the converted non-invocation
      children, in order; the children are a subsequence of the node's. */
  lemma NestedChildrenAreShownOnes(host: Host, o: Outline)
    requires |o.children| > 0
    ensures ConvertResult(host, o).children == Assigned(ConvertAll(host, ShownChildren(o)))
    ensures IsSubsequence(ShownChildren(o), o.children)
    ensures forall c :: c in o.children ==> (c in ShownChildren(o) <==> ShouldShow(c))
  {
    FilterIsSubsequence(ShouldShowTest(), o.children);
    forall c | c in o.children && ShouldShow(c)
      ensures c in ShownChildren(o)
    {
      FilterKeepsAllSatisfying(ShouldShowTest(), o.children, c);
    }
  }

  /** A node whose children are all invocations gets an empty, assigned child list. */
  lemma OnlyInvocationsGiveEmptyChildren(host: Host, o: Outline)
    requires |o.children| > 0
    requires forall c :: c in o.children ==> !ShouldShow(c)
    ensures ConvertResult(host, o).children == Assigned([])
  {
    NoneShown(o.children);
  }

  lemma {:induction false} NoneShown(os: seq<Outline>)
    requires forall c :: c in os ==> !ShouldShow(c)
    ensures Filter(ShouldShowTest(), os) == []
  {
    if os != [] {
      assert os[0] in os;
      NoneShown(os[1..]);
    }
  }

  /** Number of nodes of an outline tree. */
  function OutlineCount(o: Outline): nat
    decreases o
  {
    1 + OutlineCountAll(o.children)
  }

  function OutlineCountAll(os: seq<Outline>): nat
    decreases os
  {
    if os == [] then 0 else OutlineCount(os[0]) + OutlineCountAll(os[1..])
  }

  /** Number of nodes of an outline tree that survive the nested filter:
      a hidden child is dropped with its whole subtree. */
  function VisibleCount(o: Outline): nat
    decreases o
  {
    1 + VisibleCountAll(o.children)
  }

  function VisibleCountAll(os: seq<Outline>): nat
    decreases os
  {
    if os == [] then 0
    else (if ShouldShow(os[0]) then VisibleCount(os[0]) else 0) + VisibleCountAll(os[1..])
  }

  /** Number of symbols in a symbol tree. */
  function SymbolCount(s: DocumentSymbol): nat
    decreases s
  {
    1 + match s.children
        case NotAssigned => 0
        case Assigned(symbols) => SymbolCountAll(symbols)
  }

  function SymbolCountAll(ss: seq<DocumentSymbol>): nat
    decreases ss
  {
    if ss == [] then 0 else SymbolCount(ss[0]) + SymbolCountAll(ss[1..])
  }

  /** The converted tree has one symbol per visible outline node: exactly the
      invocation subtrees below the top level are dropped. */
  lemma {:induction false} ConvertResultCount(host: Host, o: Outline)
    ensures SymbolCount(ConvertResult(host, o)) == VisibleCount(o)
    decreases o, 1
  {
    if |o.children| > 0 {
      NestedChildrenAreShownOnes(host, o);
      ConvertShownCount(host, o.children);
    } else {
      assert VisibleCountAll(o.children) == 0;
    }
  }

  lemma {:induction false} ConvertShownCount(host: Host, os: seq<Outline>)
    ensures SymbolCountAll(ConvertAll(host, Filter(ShouldShowTest(), os))) == VisibleCountAll(os)
    decreases os, 0
  {
    if os != [] {
      ConvertShownCount(host, os[1..]);
      var rest := Filter(ShouldShowTest(), os[1..]);
      if ShouldShow(os[0]) {
        ConvertResultCount(host, os[0]);
        var all := ConvertAll(host, [os[0]] + rest);
        assert all[1..] == ConvertAll(host, rest);
      }
    }
  }

  /** Dropping nodes never adds any: the visible count is at most the size
      of the outline. */
  lemma {:induction false} VisibleWithinOutline(o: Outline)
    ensures VisibleCount(o) <= OutlineCount(o)
    decreases o, 1
  {
    VisibleWithinOutlineAll(o.children);
  }

  lemma {:induction false} VisibleWithinOutlineAll(os: seq<Outline>)
    ensures VisibleCountAll(os) <= OutlineCountAll(os)
    decreases os, 0
  {
    if os != [] {
      VisibleWithinOutline(os[0]);
      VisibleWithinOutlineAll(os[1..]);
    }
  }
}
