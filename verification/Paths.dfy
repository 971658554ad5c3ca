/** Dotted paths: `strings.Join(parts, ".")` and `strings.Split(s, ".")`. */
module Paths {

  type Path = seq<string>

  function Join(parts: Path): string {
    if |parts| == 0 then ""
    else if |parts| == 1 then parts[0]
    else parts[0] + "." + Join(parts[1..])
  }

  function Split(s: string): (parts: Path)
    ensures |parts| > 0
  {
    if s == "" then [""]
    else
      var rest := Split(s[1..]);
      if s[0] == '.' then [""] + rest else [[s[0]] + rest[0]] + rest[1..]
  }

  predicate DotFree(parts: Path) {
    forall part :: part in parts ==> '.' !in part
  }

  lemma {:induction false} SplitPart(part: string, rest: string)
    requires '.' !in part
    ensures Split(part + "." + rest) == [part] + Split(rest)
    ensures Split(part) == [part]
  {
    if part == "" {
      assert part + "." + rest == "." + rest;
    } else {
      SplitPart(part[1..], rest);
      assert (part + "." + rest)[1..] == part[1..] + "." + rest;
      assert [part[0]] + part[1..] == part;
    }
  }

  /** Splitting undoes joining, as long as no part holds a dot. */
  lemma {:induction false} SplitJoin(parts: Path)
    requires |parts| > 0 && DotFree(parts)
    ensures Split(Join(parts)) == parts
  {
    if |parts| == 1 {
      SplitPart(parts[0], "");
    } else {
      SplitPart(parts[0], Join(parts[1..]));
      SplitJoin(parts[1..]);
    }
  }

  /** Joining undoes splitting, always. */
  lemma {:induction false} JoinSplit(s: string)
    ensures Join(Split(s)) == s
  {
    if s != "" {
      JoinSplit(s[1..]);
      var rest := Split(s[1..]);
      if s[0] != '.' {
        var parts := [[s[0]] + rest[0]] + rest[1..];
        if |rest| > 1 {
          assert parts[1..] == rest[1..];
          assert [s[0]] + (rest[0] + "." + Join(rest[1..])) == s;
        }
      } else {
        assert ([""] + rest)[1..] == rest;
      }
    }
  }
}
