/**
 * The parsed HTML document as the extraction walks it. Parsing and CSS
 * selection belong to the HTML library; here a document is already the list
 * of `<form>` and `<table>` elements in document order, each with the
 * descendants the extraction selects from it.
 */
module Dom {
  import opened Common

  /**
   * One element: its attributes, its text content, and its inner HTML
   * (None when rendering the inner HTML failed).
   */
  datatype Element = Element(attrs: map<string, string>, text: string, html: Option<string>)

  /** The attribute's value if the element carries it, else `default`. */
  function AttrOr(e: Element, name: string, default: string): string
  {
    if name in e.attrs then e.attrs[name] else default
  }

  /** The attribute's value, or None when the element does not carry it. */
  function Attr(e: Element, name: string): Option<string>
  {
    if name in e.attrs then Some(e.attrs[name]) else None
  }

  /** A `<select>` with its `<option>` descendants in document order. */
  datatype SelectElem = SelectElem(elem: Element, options: seq<Element>)

  /** A `<form>` with its `<input>` and `<select>` descendants, each in document order. */
  datatype FormElem = FormElem(elem: Element, inputs: seq<Element>, selects: seq<SelectElem>)

  /** A `<tr>` with its `<th>` and its `<td>` descendants, each in document order. */
  datatype Row = Row(ths: seq<Element>, tds: seq<Element>)

  /** A `<table>` with its `<tr>` descendants in document order. */
  datatype TableElem = TableElem(elem: Element, rows: seq<Row>)

  /** Every `<form>` and every `<table>` of a page, each list in document order. */
  datatype Document = Document(forms: seq<FormElem>, tables: seq<TableElem>)
}
