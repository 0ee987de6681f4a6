/** The path of the HTML file saved next to a reStructuredText file: everything before the last
    '.' of the path (or the whole path when it has none), followed by ".html". */
module HtmlPaths {

  const HtmlSuffix: string := ".html"

  /** Python's `str.rfind` for one character: the highest index holding `c`, or -1 when there is
      none. */
  function RFind(s: string, c: char): (r: int)
    ensures -1 <= r < |s|
    ensures r == -1 ==> forall j :: 0 <= j < |s| ==> s[j] != c
    ensures r >= 0 ==> s[r] == c && forall j :: r < j < |s| ==> s[j] != c
  {
    if |s| == 0 then -1
    else if s[|s| - 1] == c then |s| - 1
    else RFind(s[..|s| - 1], c)
  }

  /** The `html_filepath` property computed from the ReST file's `filepath`. */
  function HtmlFilepathOf(filepath: string): (r: string)
  {
    var index := RFind(filepath, '.');
    (if index != -1 then filepath[..index] else filepath) + HtmlSuffix
  }

  /** Whatever the path, the result ends in ".html". */
  lemma EndsWithHtml(filepath: string)
    ensures |HtmlFilepathOf(filepath)| >= |HtmlSuffix|
    ensures HtmlFilepathOf(filepath)[|HtmlFilepathOf(filepath)| - |HtmlSuffix|..] == HtmlSuffix
  {
  }

  /** A path without a '.' keeps all of its text. */
  lemma NoDotAppends(filepath: string)
    requires forall j :: 0 <= j < |filepath| ==> filepath[j] != '.'
    ensures HtmlFilepathOf(filepath) == filepath + HtmlSuffix
  {
  }

  /** A path with a '.' loses everything from its last '.' on. */
  lemma LastDotReplaced(filepath: string, i: int)
    requires 0 <= i < |filepath| && filepath[i] == '.'
    requires forall j :: i < j < |filepath| ==> filepath[j] != '.'
    ensures HtmlFilepathOf(filepath) == filepath[..i] + HtmlSuffix
  {
  }

  /** Taking the HTML path of an HTML path changes nothing. */
  lemma Idempotent(filepath: string)
    ensures HtmlFilepathOf(HtmlFilepathOf(filepath)) == HtmlFilepathOf(filepath)
  {
    var index := RFind(filepath, '.');
    var stem := if index != -1 then filepath[..index] else filepath;
    var out := stem + HtmlSuffix;
    assert out[|stem|] == '.';
    assert forall j :: |stem| < j < |out| ==> out[j] == HtmlSuffix[j - |stem|];
    LastDotReplaced(out, |stem|);
    assert out[..|stem|] == stem;
  }
}
