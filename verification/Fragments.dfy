/** Fragments and parsed pages as objects: both are filled in place and shared by reference. */
module Fragments {
  import opened Wrappers
  import opened Html
  import opened Templating
  import opened Rendering
  import opened Includes

  class StringFragment {
    var content: string
    var stylesheets: seq<Stylesheet>

    constructor (c: string)
      ensures content == c && stylesheets == []
    {
      content, stylesheets := c, [];
    }

    function Value(): Fragment
      reads this
    {
      Fragment(content, stylesheets)
    }

    method SetContent(c: string)
      modifies this`content
      ensures content == c
    {
      content := c;
    }

    method AddStylesheets(sheets: seq<Stylesheet>)
      modifies this`stylesheets
      ensures stylesheets == old(stylesheets) + sheets
    {
      stylesheets := stylesheets + sheets;
    }
  }

  /** A fetch definition as written by a uic-fetch tag; timeout is in milliseconds. */
  datatype Fetch = Fetch(url: string, name: string, timeout: int, required: bool, discoveredBy: Option<string>)

  class MemoryContent {
    var name: string
    var requiredContent: map<string, Fetch>
    var dependencies: map<string, Params>
    var meta: map<string, Value>
    var head: Option<StringFragment>
    var body: map<string, StringFragment>
    var tail: Option<StringFragment>
    var bodyAttributes: seq<Attribute>

    constructor (n: string)
      ensures name == n && requiredContent == map[] && dependencies == map[] && meta == map[]
      ensures head == None && body == map[] && tail == None && bodyAttributes == []
    {
      name, requiredContent, dependencies, meta := n, map[], map[], map[];
      head, body, tail, bodyAttributes := None, map[], None, [];
    }
  }
}
