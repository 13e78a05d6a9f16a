/** jss/casper.py: the Casper object, an XML element tagged "Casper" that
    holds what casper.jxml answers. The POST that asks for it is not made:
    `Update` takes the parsed reply as a parameter. */
module Casper {
  import opened Errors
  import opened Xml

  class Casper {
    /** The url of casper.jxml below the JSS's base url. */
    const url: string
    /** The element the object is. */
    var element: Element

    /** `Casper(jss)`: an element tagged "Casper", then `update()`. */
    constructor (baseUrl: string, response: Element)
      ensures url == baseUrl + "/casper.jxml"
      ensures element == Element("Casper", None, None, response.children)
    {
      url := baseUrl + "/casper.jxml";
      element := Element("Casper", None, None, []);
      new;
      Update(response);
    }

    /** `update()`: the old children, text and tail are cleared, then the
      reply's root's children are appended one by one, in order. */
    method Update(response: Element)
      modifies this
      ensures element == Element(old(element).tag, None, None, response.children)
    {
      element := Cleared(element);
      var kids := response.children;
      var i := 0;
      while i < |kids|
        invariant 0 <= i <= |kids|
        invariant element == Element(old(element).tag, None, None, kids[..i])
      {
        assert kids[..i + 1] == kids[..i] + [kids[i]];
        element := Appended(element, kids[i]);
        i := i + 1;
      }
    }

    /** `__repr__`: a deep copy is indented, so the object itself keeps its
      whitespace (the method changes nothing); the copy differs from it
      only in text and tails. */
    method Repr() returns (pretty: Element)
      ensures pretty == Indented(element, 0, false)
      ensures Skeleton(pretty) == Skeleton(element)
    {
      pretty := Indent(element, 0, false);
      IndentKeepsSkeleton(element, 0, false);
    }
  }
}
