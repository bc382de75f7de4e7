/** Which paths a synchronisation takes part in. */
module Filters {
  import opened PatternMatch

  type Text = PatternMatch.Text

  /** One-byte characters, and no space among them. */
  predicate Plain(s: string) { ' ' !in s && forall i :: 0 <= i < |s| ==> s[i] as int < 256 }

  /** Some pattern of the list matches. */
  ghost predicate AnyMatches(patterns: seq<Text>, name: Text) {
    exists i :: 0 <= i < |patterns| && Tokens(patterns[i]).Some? && Matches(Tokens(patterns[i]).value, name)
  }

  ghost predicate AllWellFormed(patterns: seq<Text>) {
    forall i :: 0 <= i < |patterns| ==> Tokens(patterns[i]).Some?
  }

  /** Tries the patterns in turn; stops at the first that matches or throws. */
  method FirstMatch(patterns: seq<Text>, name: Text) returns (r: Outcome)
    ensures AllWellFormed(patterns) ==> r == if AnyMatches(patterns, name) then Yes else No
    ensures r == Yes ==> AnyMatches(patterns, name)
    ensures r == No ==> !AnyMatches(patterns, name)
    ensures r == Throws ==> !AllWellFormed(patterns)
  {
    for f := 0 to |patterns|
      invariant forall i :: 0 <= i < f && Tokens(patterns[i]).Some? ==> !Matches(Tokens(patterns[i]).value, name)
    {
      r := PatternMatchImpl(patterns[f], name);
      SearchIsMatching(patterns[f], name);
      if !r.No? { return; }
    }
    r := No;
  }

  /** A name takes part when it has no space, no excluding pattern matches it, and an including one
      does, if there are any. */
  ghost predicate Included(name: Text, included: seq<Text>, excluded: seq<Text>) {
    ' ' !in name && !AnyMatches(excluded, name) && (included == [] || AnyMatches(included, name))
  }

  method CheckIncluded(name: Text, included: seq<Text>, excluded: seq<Text>) returns (r: Outcome)
    ensures AllWellFormed(included) && AllWellFormed(excluded) ==>
      (r == if Included(name, included, excluded) then Yes else No)
    ensures r == Yes ==> ' ' !in name
    ensures AnyMatches(excluded, name) ==> r != Yes
    ensures AnyMatches(excluded, name) && AllWellFormed(excluded) ==> r == No
    ensures r == Yes && included != [] ==> AnyMatches(included, name)
    ensures included == [] && AllWellFormed(excluded) && ' ' !in name && !AnyMatches(excluded, name) ==> r == Yes
    ensures r == Throws ==> !AllWellFormed(included) || !AllWellFormed(excluded)
  {
    if ' ' in name { return No; }
    var out := FirstMatch(excluded, name);
    if out.Yes? { return No; }
    if out.Throws? { return Throws; }
    if included != [] {
      r := FirstMatch(included, name);
      return;
    }
    r := Yes;
  }
}
