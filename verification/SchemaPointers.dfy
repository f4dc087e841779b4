/**
 * What a local reference names: a URI fragment (section 2.1 of RFC 3986) that holds one token of a JSON Pointer
 * (section 4 of RFC 6901).
 */
module SchemaPointers {
  import opened Options

  function HexDigit(c: char): Option<nat> {
    if '0' <= c <= '9' then Some((c - '0') as nat)
    else if 'a' <= c <= 'f' then Some((c - 'a') as nat + 10)
    else if 'A' <= c <= 'F' then Some((c - 'A') as nat + 10)
    else None
  }

  /** Percent escapes undone; `None` for a malformed one, and for one that is only a part of a character. */
  function Unquoted(text: string): (r: Option<string>)
    ensures r.Some? ==> |r.value| <= |text| && (|r.value| == |text| <==> r.value == text)
    ensures r.Some? ==> ('%' in text <==> r.value != text)
  {
    if text == "" then Some("")
    else if text[0] != '%' then
      var rest := Unquoted(text[1..]);
      if rest.Some? then Some([text[0]] + rest.value) else None
    else if |text| < 3 || HexDigit(text[1]).None? || HexDigit(text[2]).None? then None
    else
      var code := 16 * HexDigit(text[1]).value + HexDigit(text[2]).value;
      var rest := Unquoted(text[3..]);
      if code < 128 && rest.Some? then Some([code as char] + rest.value) else None
  }

  /** The escapes of one token of a pointer undone; `None` for any other use of `~`, and where a token ends. */
  function Unescaped(token: string): (r: Option<string>)
    ensures r.Some? ==> |r.value| <= |token| && (r.value == token <==> '~' !in token)
    ensures r.Some? ==> '/' !in token
    ensures '/' !in token && '~' !in token ==> r.Some?
  {
    if token == "" then Some("")
    else if token[0] == '/' then None
    else if token[0] != '~' then
      var rest := Unescaped(token[1..]);
      if rest.Some? then Some([token[0]] + rest.value) else None
    else if |token| < 2 || token[1] !in {'0', '1'} then None
    else
      var rest := Unescaped(token[2..]);
      if rest.Some? then Some([if token[1] == '0' then '~' else '/'] + rest.value) else None
  }

  /** The definition that `#/$defs/` followed by `name` refers to; `None` if it leads deeper or nowhere. */
  function Decoded(name: string): Option<string> {
    var token := Unquoted(name);
    if token.Some? then Unescaped(token.value) else None
  }

  /** A definition name in which no escape plays a part. */
  predicate PlainName(name: string) {
    '/' !in name && '~' !in name && '%' !in name
  }

  lemma {:induction false} UnquotedPlain(text: string)
    requires '%' !in text
    ensures Unquoted(text) == Some(text)
  {
    if text != "" {
      UnquotedPlain(text[1..]);
    }
  }

  /** Exactly the plain names refer to the definition of that very name. */
  lemma {:induction false} PlainNameIff(name: string)
    ensures Decoded(name) == Some(name) <==> PlainName(name)
  {
    if '%' !in name {
      UnquotedPlain(name);
    }
  }
}
