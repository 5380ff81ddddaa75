// src/customs.rs: `MenuBool`, a boolean that parses human answers such as
// "yes" or "nah", case-insensitively.
module Customs {
  import opened Wrappers
  import opened Errors
  import opened Text

  datatype MenuBool = MenuBool(value: bool)

  /** The lowercase answers read as `true`. */
  const TrueWords: set<string> := {"y", "yes", "ye", "yep", "yeah", "yea", "yup", "true", "1"}
  /** The lowercase answers read as `false`. */
  const FalseWords: set<string> := {"n", "no", "non", "nop", "nah", "nan", "nani", "false", "0"}

  /** `MenuBool::from_str`: lowercases, then matches the two word lists. */
  function ParseMenuBool(s: string): (r: Result<MenuBool, MenuError>)
    ensures r.Ok? <==> ToLower(s) in TrueWords + FalseWords
    ensures r.Ok? ==> (r.value.value <==> ToLower(s) in TrueWords)
    ensures r.Err? ==> r.error == Input
  {
    var l := ToLower(s);
    if l == "y" || l == "yes" || l == "ye" || l == "yep" || l == "yeah" || l == "yea"
       || l == "yup" || l == "true" || l == "1" then
      Ok(MenuBool(true))
    else if l == "n" || l == "no" || l == "non" || l == "nop" || l == "nah" || l == "nan"
       || l == "nani" || l == "false" || l == "0" then
      Ok(MenuBool(false))
    else
      Err(Input)
  }

  /** `Display` shows the inner bool as Rust does. */
  function Display(b: MenuBool): (s: string)
    ensures s == (if b.value then "true" else "false")
  {
    if b.value then "true" else "false"
  }

  /** No answer is read both ways, so the parse is a partial function. */
  lemma WordListsDisjoint()
    ensures TrueWords * FalseWords == {}
  {
  }

  /** Parsing ignores ASCII case. */
  lemma ParseIgnoresCase(s: string)
    ensures ParseMenuBool(s) == ParseMenuBool(ToLower(s))
  {
    ToLowerIdempotent(s);
  }

  /** What `Display` shows parses back to the same value. */
  lemma DisplayRoundTrip(b: MenuBool)
    ensures ParseMenuBool(Display(b)) == Ok(b)
  {
    var s := Display(b);
    assert ToLower(s) == s;
  }

  /** A near miss such as "yeppppp" is rejected. */
  lemma RejectsNearMiss()
    ensures ParseMenuBool("yeppppp") == Err(Input)
  {
    assert ToLower("yeppppp") == "yeppppp";
  }
}
