/** Tokens and attributes as delivered by the HTML tokenizer, and the helpers that read them. */
module Html {
  import opened Wrappers

  datatype Attribute = Attribute(namespace: string, key: string, val: string)

  /** Every token carries the text it was read from. */
  datatype Token =
    | TextToken(raw: string)
    | StartTag(name: string, attrs: seq<Attribute>, raw: string)
    | SelfClosingTag(name: string, attrs: seq<Attribute>, raw: string)
    | EndTag(name: string, raw: string)
    | OtherToken(raw: string)  // comments and doctypes

  predicate IsOpenTag(t: Token) {
    t.StartTag? || t.SelfClosingTag?
  }

  predicate IsNamed(t: Token, name: string) {
    IsOpenTag(t) && t.name == name
  }

  /** The attributes of one <link rel="stylesheet"> tag. */
  type Stylesheet = seq<Attribute>

  function Raw(tokens: seq<Token>): string {
    if tokens == [] then "" else tokens[0].raw + Raw(tokens[1..])
  }

  lemma {:induction false} RawConcat(a: seq<Token>, b: seq<Token>)
    ensures Raw(a + b) == Raw(a) + Raw(b)
  {
    if a == [] {
      assert a + b == b;
    } else {
      assert (a + b)[1..] == a[1..] + b;
      RawConcat(a[1..], b);
    }
  }

  /** The first attribute with this key. */
  function GetAttr(attrs: seq<Attribute>, name: string): Option<Attribute> {
    if attrs == [] then None
    else if attrs[0].key == name then Some(attrs[0])
    else GetAttr(attrs[1..], name)
  }

  lemma {:induction false} FirstAttr(attrs: seq<Attribute>, name: string)
    ensures match GetAttr(attrs, name)
            case None => forall i :: 0 <= i < |attrs| ==> attrs[i].key != name
            case Some(a) => exists i :: 0 <= i < |attrs| && attrs[i] == a && a.key == name && forall j :: 0 <= j < i ==> attrs[j].key != name
  {
    if attrs != [] && attrs[0].key != name {
      FirstAttr(attrs[1..], name);
      if GetAttr(attrs, name).Some? {
        var i :| 0 <= i < |attrs[1..]| && attrs[1..][i] == GetAttr(attrs, name).value && attrs[1..][i].key == name
                 && forall j :: 0 <= j < i ==> attrs[1..][j].key != name;
        assert attrs[i + 1] == attrs[1..][i];
        forall j | 0 <= j < i + 1 ensures attrs[j].key != name { if j > 0 { assert attrs[1..][j - 1] == attrs[j]; } }
      }
    }
  }

  predicate AttrHasValue(attrs: seq<Attribute>, name: string, value: string) {
    var a := GetAttr(attrs, name);
    a.Some? && a.value.val == value
  }

  /** escape stands for html.EscapeString. */
  function JoinAttrs(attrs: seq<Attribute>, escape: string -> string): string {
    if attrs == [] then ""
    else
      var a := attrs[0];
      var text := (if a.namespace != "" then a.namespace + ":" else "") + a.key + "=\"" + escape(a.val) + "\"";
      if |attrs| == 1 then text else text + " " + JoinAttrs(attrs[1..], escape)
  }
}
