/** Strings: white space and trimming as Rust's `str::trim` does it (Unicode `White_Space`). */
module Text {

  predicate IsBlank(c: char) {
    || '\t' <= c <= '\r' || c == ' ' || c == '\U{85}' || c == '\U{A0}' || c == '\U{1680}'
    || '\U{2000}' <= c <= '\U{200A}' || c == '\U{2028}' || c == '\U{2029}' || c == '\U{202F}'
    || c == '\U{205F}' || c == '\U{3000}'
  }

  function TrimStart(s: string): string {
    if s != [] && IsBlank(s[0]) then TrimStart(s[1..]) else s
  }

  function TrimEnd(s: string): string {
    if s != [] && IsBlank(s[|s| - 1]) then TrimEnd(s[..|s| - 1]) else s
  }

  function Trim(s: string): string {
    TrimEnd(TrimStart(s))
  }

  predicate IsTrimmed(s: string) {
    s == [] || (!IsBlank(s[0]) && !IsBlank(s[|s| - 1]))
  }

  lemma {:induction false} TrimEndKeepsStart(s: string)
    requires s == [] || !IsBlank(s[0])
    ensures IsTrimmed(TrimEnd(s))
  {
    if s != [] && IsBlank(s[|s| - 1]) {
      TrimEndKeepsStart(s[..|s| - 1]);
    }
  }

  lemma {:induction false} TrimStartStops(s: string)
    ensures TrimStart(s) == [] || !IsBlank(TrimStart(s)[0])
  {
    if s != [] && IsBlank(s[0]) {
      TrimStartStops(s[1..]);
    }
  }

  lemma TrimTrims(s: string)
    ensures IsTrimmed(Trim(s))
  {
    TrimStartStops(s);
    TrimEndKeepsStart(TrimStart(s));
  }

  predicate AllBlank(s: string) {
    forall i :: 0 <= i < |s| ==> IsBlank(s[i])
  }

  lemma {:induction false} TrimStartCuts(s: string) returns (before: string)
    ensures AllBlank(before) && s == before + TrimStart(s)
  {
    before := "";
    if s != "" && IsBlank(s[0]) {
      var more := TrimStartCuts(s[1..]);
      before := [s[0]] + more;
    }
  }

  lemma {:induction false} TrimEndCuts(s: string) returns (after: string)
    ensures AllBlank(after) && s == TrimEnd(s) + after
  {
    after := "";
    if s != "" && IsBlank(s[|s| - 1]) {
      var more := TrimEndCuts(s[..|s| - 1]);
      after := more + [s[|s| - 1]];
    }
  }

  /** Trimming cuts off blanks at both ends and nothing else, and leaves none there. */
  lemma TrimCutsOnlyBlanks(s: string)
    ensures IsTrimmed(Trim(s))
    ensures exists before, after :: AllBlank(before) && AllBlank(after) && s == before + Trim(s) + after
  {
    TrimTrims(s);
    var before := TrimStartCuts(s);
    var after := TrimEndCuts(TrimStart(s));
    assert s == before + Trim(s) + after;
  }
}
