/**
 * Parsed HTML as the scraper sees it after BeautifulSoup has run: an element is
 * its tag name, its attributes and its text; a form is its attributes and the
 * `input` elements it contains, in document order.
 */
module Html {
  import opened Wrappers

  datatype Element = Element(tag: string, attrs: map<string, string>, text: string)

  datatype Form = Form(attrs: map<string, string>, inputs: seq<Element>)

  /** `tag.get(name)`: the attribute value, or `None` when it is absent. */
  function Get(attrs: map<string, string>, name: string): (r: Option<string>)
    ensures r.Some? <==> name in attrs
    ensures r.Some? ==> r.value == attrs[name]
  {
    if name in attrs then Some(attrs[name]) else None
  }

  /** `tag.get(name, default)`. */
  function GetOr(attrs: map<string, string>, name: string, default: string): (r: string)
    ensures name in attrs ==> r == attrs[name]
    ensures name !in attrs ==> r == default
  {
    if name in attrs then attrs[name] else default
  }

  /** Python truthiness of `tag.get(name)`: present and non-empty. */
  predicate HasNonEmpty(attrs: map<string, string>, name: string)
  {
    name in attrs && attrs[name] != ""
  }
}
