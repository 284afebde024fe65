/** The one piece of JavaScript's string library the page relies on. */
module JsString {

  /** `s.startsWith(prefix)` with the default search position 0, over UTF-16 code units. */
  function StartsWith(s: string, prefix: string): (r: bool)
    ensures r <==> |prefix| <= |s| && s[..|prefix|] == prefix
  {
    if prefix == [] then true
    else if s == [] then false
    else s[0] == prefix[0] && StartsWith(s[1..], prefix[1..])
  }
}
