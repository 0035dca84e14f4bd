/** String helpers shared by every handler. */
module Util {
  import opened Wrappers

  /** A Slack mrkdwn hyperlink `<url|text>`. */
  function Link(url: string, text: string): string
  {
    "<" + url + "|" + text + ">"
  }

  /** The first position of `c` in `s`, if any. */
  function IndexOf(s: string, c: char): (r: Option<nat>)
    ensures r.Some? ==> r.value < |s| && s[r.value] == c && c !in s[..r.value]
    ensures r.None? <==> c !in s
  {
    if s == [] then None
    else if s[0] == c then Some(0)
    else match IndexOf(s[1..], c)
      case None => None
      case Some(i) => assert s[1..][..i] == s[1..i + 1]; Some(i + 1)
  }

  /** Reads a rendered link back into its url and its text, splitting at
      the first `|`; None when `s` is not of the form `<...|...>`. */
  function ParseLink(s: string): Option<(string, string)>
  {
    if |s| < 2 || s[0] != '<' || s[|s| - 1] != '>' then None
    else
      var inner := s[1..|s| - 1];
      match IndexOf(inner, '|')
      case None => None
      case Some(i) => Some((inner[..i], inner[i + 1..]))
  }

  /** A link whose url holds no `|` can be read back: url and text are
      recovered exactly, whatever the text holds. */
  lemma LinkRoundTrip(url: string, text: string)
    requires '|' !in url
    ensures ParseLink(Link(url, text)) == Some((url, text))
  {
    var s := Link(url, text);
    var inner := s[1..|s| - 1];
    assert inner == url + "|" + text;
    assert inner[|url|] == '|' && inner[..|url|] == url;
    assert inner[|url| + 1..] == text;
  }
}
