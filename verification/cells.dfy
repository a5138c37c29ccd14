/** The Cell-Content Extractor: turns one polymorphic cell value into plain
    text (src/App.tsx, lines 156-190). */
module Cells {
  import opened Wrappers
  import opened Text

  /** One element of a rich-text span list. `NullItem` is a `null` element, on
      which reading `.text` throws; `Item(text)` carries the string form of its
      `text` property, `None` when the property is missing or falsy (`null`,
      `0`, `false`, `""`), which the extractor treats as having no text. */
  datatype Span = NullItem | Item(text: Option<string>)

  /** A raw cell value as the host hands it over.
      - `Absent`: `undefined`, `null`, or a falsy scalar (`0`, `NaN`, `false`);
      - `Str(s)`: a string (the empty string is falsy);
      - `ObjArray(items)`: an already decoded array of spans;
      - `Obj(text, content, dump)`: a non-array object with its `text` and
        `content` properties and its `JSON.stringify` form;
      - `Other(repr)`: any other truthy value, with its `String(...)` form. */
  datatype CellValue =
    | Absent
    | Str(s: string)
    | ObjArray(items: seq<Span>)
    | Obj(text: Option<string>, content: Option<string>, dump: string)
    | Other(repr: string)

  /** `JSON.parse` applied to a string that starts with `[` and ends with `]`:
      `None` when it throws. Such a string can only parse to an array. */
  type Parser = string -> Option<seq<Span>>

  /** The string form of the TypeError raised by reading `.text` of `null`. */
  const NullItemFault := "TypeError: Cannot read properties of null (reading 'text')"

  /** JavaScript truthiness of a cell value. */
  predicate Truthy(v: CellValue) {
    match v
    case Absent => false
    case Str(s) => s != ""
    case _ => true
  }

  /** `s.startsWith('[') && s.endsWith(']')`. */
  predicate LooksLikeArray(s: string) {
    |s| > 0 && s[0] == '[' && s[|s| - 1] == ']'
  }

  predicate NoNullItems(items: seq<Span>) {
    forall i :: 0 <= i < |items| ==> items[i].Item?
  }

  /** `item.text || ''` for every element, in order. */
  function ItemTexts(items: seq<Span>): (ts: seq<string>)
    requires NoNullItems(items)
    ensures |ts| == |items|
  {
    seq(|items|, i requires 0 <= i < |items| => items[i].text.GetOr(""))
  }

  /** `items.map(item => item.text || '').join('')`, which throws on a null element. */
  function JoinItems(items: seq<Span>): (r: Result<string, string>)
    ensures r.Success? <==> NoNullItems(items)
    ensures r.Failure? ==> r.error == NullItemFault
    ensures r.Success? ==> r.value == Join(ItemTexts(items))
  {
    if |items| == 0 then Success("")
    else
      var init := items[..|items| - 1];
      match JoinItems(init)
      case Failure(e) => Failure(e)
      case Success(t) =>
        match items[|items| - 1]
        case NullItem => Failure(NullItemFault)
        case Item(text) =>
          assert ItemTexts(init) == ItemTexts(items)[..|items| - 1];
          Success(t + text.GetOr(""))
  }

  /** The shape test of line 167: a non-empty array whose first element has a truthy `text`. */
  predicate RichText(items: seq<Span>) {
    |items| > 0 && items[0].Item? && TruthyText(items[0].text)
  }

  /** The `try` block of lines 165-175 for a string that looks like an array.
      Every exception inside it is caught and yields the raw string. */
  function DecodeRichText(s: string, parse: Parser): string
  {
    match parse(s)
    case None => s
    case Some(items) =>
      if RichText(items) then
        match JoinItems(items)
        case Success(t) => t
        case Failure(_) => s
      else s
  }

  /** The text of a cell. A string cell never fails; only a decoded array with a
      null element raises, and that exception is not caught by the caller. */
  function ExtractText(v: CellValue, parse: Parser): (r: Result<string, string>)
    ensures r.Failure? <==> v.ObjArray? && !NoNullItems(v.items)
    ensures r.Failure? ==> r.error == NullItemFault
    ensures !Truthy(v) ==> r == Success("")
    ensures v.Str? && !LooksLikeArray(v.s) ==> r == Success(v.s)
    ensures v.Str? && LooksLikeArray(v.s) ==>
      match parse(v.s)
      case Some(items) =>
        if RichText(items) && NoNullItems(items)
        then r == Success(Join(ItemTexts(items)))
        else r == Success(v.s)
      case None => r == Success(v.s)
    ensures v.ObjArray? && NoNullItems(v.items) ==> r == Success(Join(ItemTexts(v.items)))
    ensures v.Obj? ==>
      r == Success(if TruthyText(v.text) then v.text.value
                   else if TruthyText(v.content) then v.content.value
                   else v.dump)
    ensures v.Other? ==> r == Success(v.repr)
  {
    match v
    case Absent => Success("")
    case Str(s) => Success(if LooksLikeArray(s) then DecodeRichText(s, parse) else s)
    case ObjArray(items) => JoinItems(items)
    case Obj(text, content, dump) =>
      Success(if TruthyText(text) then text.value
              else if TruthyText(content) then content.value
              else dump)
    case Other(repr) => Success(repr)
  }

  /** A rich-text span list extracts to the same text whether the cell holds it
      JSON-encoded as a string or already decoded as an array. */
  lemma EncodedMatchesDecoded(s: string, items: seq<Span>, parse: Parser)
    requires LooksLikeArray(s) && parse(s) == Some(items)
    requires RichText(items) && NoNullItems(items)
    ensures ExtractText(Str(s), parse) == ExtractText(ObjArray(items), parse)
    ensures ExtractText(Str(s), parse).value == Join(ItemTexts(items))
  {
  }
}
