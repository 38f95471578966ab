/** Small shared vocabulary: optional values (the source's NULL) and the two
    string comparisons the source uses, exact and ignoring ASCII case. */
module Prelude {
  datatype Option<+T> = None | Some(value: T) {
    function GetOr(default: T): T {
      if Some? then value else default
    }
  }

  function OrElse<T>(x: Option<T>, y: Option<T>): Option<T> {
    if x.Some? then x else y
  }

  /** What libxml2 stores and returns when it is handed a NULL string. */
  function TextOf(s: Option<string>): string {
    if s.Some? then s.value else ""
  }

  function LowerChar(c: char): char {
    if 'A' <= c <= 'Z' then (c as int + 32) as char else c
  }

  function Lower(s: string): (l: string)
  {
    seq(|s|, i requires 0 <= i < |s| => LowerChar(s[i]))
  }

  /** STREQC: equality ignoring ASCII case. */
  predicate EqNoCase(s: string, t: string) {
    Lower(s) == Lower(t)
  }

  /** Two characters that differ at most in case. */
  predicate SameLetter(c: char, d: char) {
    || c == d
    || ('A' <= c <= 'Z' && d as int == c as int + 32)
    || ('A' <= d <= 'Z' && c as int == d as int + 32)
  }

  lemma EqNoCaseExactly(s: string, t: string)
    ensures EqNoCase(s, t) <==> |s| == |t| && forall i :: 0 <= i < |s| ==> SameLetter(s[i], t[i])
  {
    assert |Lower(s)| == |s| && |Lower(t)| == |t|;
    if EqNoCase(s, t) {
      forall i | 0 <= i < |s| ensures SameLetter(s[i], t[i]) {
        assert Lower(s)[i] == Lower(t)[i];
      }
    }
  }

  predicate StartsWith(s: string, prefix: string) {
    prefix <= s
  }

  lemma Associative<T>(a: seq<T>, b: seq<T>, c: seq<T>)
    ensures a + b + c == a + (b + c)
  {
  }

  lemma Regroup<T>(w: seq<T>, a: seq<T>, b: seq<T>, c: seq<T>)
    ensures w + a + b + c == w + (a + b + c)
  {
  }

  predicate Distinct<T(==)>(s: seq<T>) {
    forall i, j :: 0 <= i < j < |s| ==> s[i] != s[j]
  }
}

/** libvirt's own vocabulary. */
module Libvirt {
  /** virDomainState */
  datatype VirState = NoState | Running | Blocked | VirPaused | Shutdown | Shutoff | VirCrashed | PmSuspended
}
