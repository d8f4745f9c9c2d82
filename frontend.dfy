/**
 * The pure helpers of the single-page client: the escaping applied before
 * user data is put into HTML or into a quoted JavaScript string, and the
 * checks the relationship and event forms make before they call the API.
 */
module Frontend {
  import opened Common

  /** The characters escapeHtml replaces. */
  predicate HtmlSpecial(c: char) {
    c == '&' || c == '<' || c == '>' || c == '"' || c == '\''
  }

  /** The replacement of one character, as escapeHtml's lookup table gives it. */
  function HtmlEntity(c: char): (r: string)
    ensures r != [] && (HtmlSpecial(c) ==> r[0] == '&') && (!HtmlSpecial(c) ==> r == [c])
  {
    match c
    case '&' => "&amp;"
    case '<' => "&lt;"
    case '>' => "&gt;"
    case '"' => "&quot;"
    case '\'' => "&#39;"
    case _ => [c]
  }

  /** The characters that may not appear unescaped in the result of escapeHtml. */
  predicate Markup(c: char) {
    c == '<' || c == '>' || c == '"' || c == '\''
  }

  /**
   * str.replace(/[&<>"']/g, ...): every character is replaced by its entity,
   * left to right; the replacements are not scanned again.
   */
  function EscapeHtmlText(s: string): (r: string)
    ensures forall k :: 0 <= k < |r| ==> !Markup(r[k])
    ensures |r| >= |s|
    ensures (forall k :: 0 <= k < |s| ==> !HtmlSpecial(s[k])) ==> r == s
  {
    if s == [] then [] else HtmlEntity(s[0]) + EscapeHtmlText(s[1..])
  }

  /** escapeHtml: a missing (null or undefined) value gives the empty string. */
  function EscapeHtml(s: Option<string>): (r: string)
    ensures s.None? ==> r == ""
    ensures s.Some? ==> r == EscapeHtmlText(s.value)
  {
    if !s.Some? || s.value == "" then "" else EscapeHtmlText(s.value)
  }

  /** Decodes the five entities escapeHtml produces; the partner of EscapeHtmlText. */
  function UnescapeHtml(r: string): string
  {
    if r == [] then []
    else if r[0] != '&' then [r[0]] + UnescapeHtml(r[1..])
    else if |r| >= 5 && r[..5] == "&amp;" then "&" + UnescapeHtml(r[5..])
    else if |r| >= 4 && r[..4] == "&lt;" then "<" + UnescapeHtml(r[4..])
    else if |r| >= 4 && r[..4] == "&gt;" then ">" + UnescapeHtml(r[4..])
    else if |r| >= 6 && r[..6] == "&quot;" then "\"" + UnescapeHtml(r[6..])
    else if |r| >= 5 && r[..5] == "&#39;" then "'" + UnescapeHtml(r[5..])
    else [r[0]] + UnescapeHtml(r[1..])
  }

  /** Decoding the replacement of one character gives that character back. */
  lemma UnescapeEntity(c: char, rest: string)
    ensures UnescapeHtml(HtmlEntity(c) + rest) == [c] + UnescapeHtml(rest)
  {
    var r := HtmlEntity(c) + rest;
    if c == '&' {
      assert r[..5] == "&amp;" && r[5..] == rest;
    } else if c == '<' {
      assert r[1] == 'l' && r[..4] == "&lt;" && r[4..] == rest;
    } else if c == '>' {
      assert r[1] == 'g' && r[..4] == "&gt;" && r[4..] == rest;
    } else if c == '"' {
      assert r[1] == 'q' && r[..6] == "&quot;" && r[6..] == rest;
    } else if c == '\'' {
      assert r[1] == '#' && r[..5] == "&#39;" && r[5..] == rest;
    } else {
      assert r[0] == c && r[1..] == rest;
    }
  }

  /** Escaping loses nothing: decoding the entities gives back the input. */
  lemma {:induction false} EscapeHtmlRoundTrip(s: string)
    ensures UnescapeHtml(EscapeHtmlText(s)) == s
  {
    if s != [] {
      UnescapeEntity(s[0], EscapeHtmlText(s[1..]));
      EscapeHtmlRoundTrip(s[1..]);
      assert s == [s[0]] + s[1..];
    }
  }

  /** str.replace(/'/g, "\\'"): every single quote gets a backslash in front. */
  function EscapeJsText(s: string): (r: string)
    ensures forall k :: 0 <= k < |r| && r[k] == '\'' ==> k > 0 && r[k - 1] == '\\'
    ensures r == [] || r[0] != '\''
    ensures '\'' !in s ==> r == s
  {
    if s == [] then []
    else if s[0] == '\'' then "\\'" + EscapeJsText(s[1..])
    else [s[0]] + EscapeJsText(s[1..])
  }

  /** escapeJs: a missing value gives the empty string. */
  function EscapeJs(s: Option<string>): (r: string)
    ensures s.None? ==> r == ""
    ensures s.Some? ==> r == EscapeJsText(s.value)
  {
    if !s.Some? || s.value == "" then "" else EscapeJsText(s.value)
  }

  /** Drops the backslash of every \' pair; the partner of EscapeJsText. */
  function UnescapeJs(r: string): string
  {
    if r == [] then []
    else if |r| >= 2 && r[0] == '\\' && r[1] == '\'' then "'" + UnescapeJs(r[2..])
    else [r[0]] + UnescapeJs(r[1..])
  }

  /** Escaping for JavaScript loses nothing, even next to backslashes of the input. */
  lemma {:induction false} EscapeJsRoundTrip(s: string)
    ensures UnescapeJs(EscapeJsText(s)) == s
  {
    if s != [] {
      var rest := EscapeJsText(s[1..]);
      EscapeJsRoundTrip(s[1..]);
      if s[0] == '\'' {
        assert EscapeJsText(s) == "\\'" + rest;
        assert ("\\'" + rest)[2..] == rest;
      } else {
        assert EscapeJsText(s) == [s[0]] + rest;
        assert ([s[0]] + rest)[1..] == rest;
      }
      assert s == [s[0]] + s[1..];
    }
  }

  /** RELATION_TYPES of the client. */
  const ClientRelationTypes: seq<string> := ["father", "mother", "brother", "sister", "husband", "wife"]

  /**
   * The option values fillRelationTypes puts in the relation select: the
   * empty placeholder, then each of RELATION_TYPES.
   */
  const RelationOptions: seq<string> := [""] + ClientRelationTypes

  /**
   * onRelationshipFormSubmit: both person selections parsed to a non-zero
   * number (None stands for NaN) and a relation chosen.
   */
  predicate RelationshipFormSubmits(person1: Option<int>, person2: Option<int>, relType: string) {
    PresentId(person1) && PresentId(person2) && relType != ""
  }

  /** onEventFormSubmit: a person chosen and a title typed. */
  predicate EventFormSubmits(person: Option<int>, title: string) {
    PresentId(person) && title != ""
  }
}
