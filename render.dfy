/** The rendering steps the transforms compose. The renderers themselves
    (`html_to_markdown`, `format_date_header`, `clean_markdown_formatting`)
    and the conversion of a Unix timestamp to an ISO date are not defined in
    this model: they are given as functions, and nothing is assumed about
    what they return. */
module Render {
  import opened JsonValue
  import opened Text

  /** The external renderers. `isoFormat` is
      `datetime.fromtimestamp(x).isoformat()`, `None` when it raises. */
  datatype Renderers = Renderers(
    htmlToMarkdown: string -> string,
    formatDateHeader: Json -> string,
    cleanMarkdown: string -> string,
    isoFormat: Json -> Option<string>)

  const Separator: string := "<br><br>"

  /** A date header followed by a body, the two separated by two HTML line
      breaks; an empty body leaves the header alone. */
  function WithHeader(header: string, body: string): string
  {
    if body != [] then header + Separator + body else header
  }

  /** Reads the body back from a text that starts with `header` and the
      separator. */
  function BodyAfter(content: string, header: string): Option<string>
  {
    var h := header + Separator;
    if StartsWith(content, h) then Some(content[|h|..]) else None
  }

  /** A non-empty body can be read back after its header; an empty one leaves
      exactly the header. */
  lemma WithHeaderRoundTrip(header: string, body: string)
    ensures body != [] ==> BodyAfter(WithHeader(header, body), header) == Some(body)
    ensures body == [] ==> WithHeader(header, body) == header
  {
    if body != [] {
      var h := header + Separator;
      assert WithHeader(header, body) == h + body;
      assert (h + body)[..|h|] == h && (h + body)[|h|..] == body;
    }
  }

  /** `s.replace('\n', '<br>')`: the result has no newline, is empty exactly
      when `s` is, and is `s` itself when `s` had no newline. */
  function NewlinesToBr(s: string): (r: string)
    ensures !Contains(r, "\n")
    ensures r == [] <==> s == []
    ensures !Contains(s, "\n") ==> r == s
  {
    ReplaceLeavesNoOccurrence(s, "\n", "<br>");
    if !Contains(s, "\n") then ReplaceAbsent(s, "\n", "<br>"); Replace(s, "\n", "<br>")
    else Replace(s, "\n", "<br>")
  }
}
