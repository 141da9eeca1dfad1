/** The performance-counter instance name of a channel: the five characters
    an instance name may not contain are mapped to legal ones. */
module InstanceName {

  predicate IsIllegal(c: char) {
    c == '(' || c == ')' || c == '#' || c == '\\' || c == '/'
  }

  /** The mapping table: `(` to `[`, `)` to `]`, and `#`, `\`, `/` to `-`. */
  function LegalChar(c: char): (d: char)
    ensures !IsIllegal(d)
    ensures !IsIllegal(c) ==> d == c
  {
    if c == '(' then '['
    else if c == ')' then ']'
    else if c == '#' || c == '\\' || c == '/' then '-'
    else c
  }

  /** `String.Replace(from, to)` on characters. */
  function ReplaceChar(s: string, from: char, to: char): (r: string)
    ensures |r| == |s|
    ensures forall i :: 0 <= i < |s| ==> r[i] == if s[i] == from then to else s[i]
  {
    seq(|s|, i requires 0 <= i < |s| => if s[i] == from then to else s[i])
  }

  /** `scrubInstanceName`: returns the name itself when it holds none of the
      illegal characters, otherwise the chain of five replacements. */
  function Scrub(name: string): (r: string)
    ensures |r| == |name|
    ensures forall i :: 0 <= i < |name| ==> r[i] == LegalChar(name[i])
    ensures forall i :: 0 <= i < |r| ==> !IsIllegal(r[i])
  {
    if '(' in name || ')' in name || '#' in name || '\\' in name || '/' in name then
      var a := ReplaceChar(name, '(', '[');
      var b := ReplaceChar(a, ')', ']');
      var c := ReplaceChar(b, '#', '-');
      var d := ReplaceChar(c, '\\', '-');
      ReplaceChar(d, '/', '-')
    else
      name
  }

  /** A name without illegal characters is its own instance name. */
  lemma ScrubClean(name: string)
    requires forall i :: 0 <= i < |name| ==> !IsIllegal(name[i])
    ensures Scrub(name) == name
  {
  }

  /** Scrubbing twice is scrubbing once. */
  lemma ScrubIdempotent(name: string)
    ensures Scrub(Scrub(name)) == Scrub(name)
  {
    ScrubClean(Scrub(name));
  }

  /** Distinct channel names can share one instance name, so their counters
      are the same instance. */
  lemma ScrubNotInjective()
    ensures Scrub("App(1)") == Scrub("App[1]") == "App[1]"
  {
    assert Scrub("App[1]") == "App[1]" by { ScrubClean("App[1]"); }
    assert Scrub("App(1)")[3] == '[' && Scrub("App(1)")[5] == ']';
    assert Scrub("App(1)") == "App[1]";
  }
}
