/** Well-formed ESI pages as trees, and their printed text. */
module Document {
  import opened Tags

  /** A page: a list of nodes, each holding the rest of the list. */
  datatype Doc =
    | End
    | Text(text: string, rest: Doc)
    | IncludeTag(attrs: string, rest: Doc)
    | IncludeElem(attrs: string, body: Doc, rest: Doc)
    | CommentTag(attrs: string, rest: Doc)
    | Block(kind: Name, attrs: string, body: Doc, rest: Doc)
    | TryElem(attrs: string, gap: string, attemptAttrs: string, attempt: Doc, alt: Alt, tail: string, rest: Doc)
    | ChooseElem(attrs: string, kids: Kids, tail: string, rest: Doc)

  datatype Alt = NoAlt | ExceptElem(gap: string, attrs: string, body: Doc)

  /** The children of a choose element, in any order. */
  datatype Kids =
    | NoKids
    | WhenElem(gap: string, test: string, attrs: string, body: Doc, more: Kids)
    | OtherwiseElem(gap: string, attrs: string, body: Doc, more: Kids)

  function Print(d: Doc): string
    decreases d, 1
  {
    if d.End? then "" else Head(d) + Print(d.rest)
  }

  /** The text of the first node. */
  function Head(d: Doc): string
    requires !d.End?
    decreases d, 0
  {
    match d
    case Text(text, _) => text
    case IncludeTag(attrs, _) => OpenTag(Include, attrs + "/")
    case IncludeElem(attrs, body, _) => Element(Include, attrs, Print(body))
    case CommentTag(attrs, _) => OpenTag(Comment, attrs)
    case Block(kind, attrs, body, _) => Element(kind, attrs, Print(body))
    case TryElem(attrs, gap, attemptAttrs, attempt, alt, tail, _) =>
      Element(Try, attrs, gap + Element(Attempt, attemptAttrs, Print(attempt)) + PrintAlt(alt) + tail)
    case ChooseElem(attrs, kids, tail, _) =>
      Element(Choose, attrs, PrintKids(kids) + tail)
  }

  function PrintAlt(a: Alt): string {
    match a
    case NoAlt => ""
    case ExceptElem(gap, attrs, body) => gap + Element(Except, attrs, Print(body))
  }

  function WhenAttrs(test: string, attrs: string): string {
    " test=\"" + test + "\"" + attrs
  }

  function PrintKids(k: Kids): string {
    match k
    case NoKids => ""
    case WhenElem(gap, test, attrs, body, more) =>
      gap + Element(When, WhenAttrs(test, attrs), Print(body)) + PrintKids(more)
    case OtherwiseElem(gap, attrs, body, more) =>
      gap + Element(Otherwise, attrs, Print(body)) + PrintKids(more)
  }

  // ---- Well-formedness ----

  /** The quote character open behind `s` if `q` was open before it; a blank stands for none. */
  function QuoteAfter(s: string, q: char): char {
    if s == "" then q
    else if q != ' ' then QuoteAfter(s[1..], if s[0] == q then ' ' else q)
    else if s[0] == '"' || s[0] == '\'' then QuoteAfter(s[1..], s[0])
    else QuoteAfter(s[1..], ' ')
  }

  predicate QuotesClosed(s: string) {
    QuoteAfter(s, ' ') == ' '
  }

  predicate WellFormed(d: Doc) {
    match d
    case End => true
    case Text(text, rest) => text != "" && Inert(text) && !rest.Text? && WellFormed(rest)
    case IncludeTag(attrs, rest) => Clean(attrs) && WellFormed(rest)
    case IncludeElem(attrs, body, rest) =>
      && Clean(attrs) && (attrs == "" || attrs[|attrs| - 1] != '/')
      && WellFormed(body) && NoIncludeElem(body) && WellFormed(rest)
    case CommentTag(attrs, rest) => Clean(attrs) && WellFormed(rest)
    case Block(kind, attrs, body, rest) =>
      && (kind == Remove || kind == Vars || (kind == Inline && QuotesClosed(attrs)))
      && Clean(attrs) && WellFormed(body) && WellFormed(rest)
    case TryElem(attrs, gap, attemptAttrs, attempt, alt, tail, rest) =>
      && Clean(attrs) && Inert(gap) && Clean(attemptAttrs) && WellFormed(attempt)
      && WellFormedAlt(alt) && Inert(tail) && WellFormed(rest)
    case ChooseElem(attrs, kids, tail, rest) =>
      Clean(attrs) && WellFormedKids(kids) && Inert(tail) && WellFormed(rest)
  }

  predicate WellFormedAlt(a: Alt) {
    match a
    case NoAlt => true
    case ExceptElem(gap, attrs, body) => Inert(gap) && Clean(attrs) && WellFormed(body)
  }

  predicate WellFormedKids(k: Kids) {
    match k
    case NoKids => true
    case WhenElem(gap, test, attrs, body, more) =>
      && Inert(gap) && Clean(test) && '"' !in test && Clean(attrs)
      && WellFormed(body) && WellFormedKids(more)
    case OtherwiseElem(gap, attrs, body, more) =>
      Inert(gap) && Clean(attrs) && WellFormed(body) && WellFormedKids(more)
  }

  /** No include with a body, at any depth. Such an include ends at the first `</esi:include>`,
      so its body cannot hold another one. */
  predicate NoIncludeElem(d: Doc) {
    match d
    case End => true
    case Text(_, rest) => NoIncludeElem(rest)
    case IncludeTag(_, rest) => NoIncludeElem(rest)
    case IncludeElem(_, _, _) => false
    case CommentTag(_, rest) => NoIncludeElem(rest)
    case Block(_, _, body, rest) => NoIncludeElem(body) && NoIncludeElem(rest)
    case TryElem(_, _, _, attempt, alt, _, rest) =>
      NoIncludeElem(attempt) && (alt.ExceptElem? ==> NoIncludeElem(alt.body)) && NoIncludeElem(rest)
    case ChooseElem(_, kids, _, rest) => NoIncludeElemKids(kids) && NoIncludeElem(rest)
  }

  predicate NoIncludeElemKids(k: Kids) {
    match k
    case NoKids => true
    case WhenElem(_, _, _, body, more) => NoIncludeElem(body) && NoIncludeElemKids(more)
    case OtherwiseElem(_, _, body, more) => NoIncludeElem(body) && NoIncludeElemKids(more)
  }
}
