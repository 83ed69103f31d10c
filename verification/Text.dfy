/** String splitting, trimming and decimal numbers as the rule syntax uses
    them. */
module Text {
  import opened Outcomes

  /** Characters with the Unicode White_Space property. */
  predicate IsSpace(c: char) {
    || '\U{9}' <= c <= '\U{D}' || c == ' ' || c == '\U{85}' || c == '\U{A0}' || c == '\U{1680}'
    || '\U{2000}' <= c <= '\U{200A}' || c == '\U{2028}' || c == '\U{2029}' || c == '\U{202F}' || c == '\U{205F}'
      || c == '\U{3000}'
  }

  function TrimStart(s: string): string {
    if s != [] && IsSpace(s[0]) then TrimStart(s[1..]) else s
  }

  function TrimEnd(s: string): string {
    if s != [] && IsSpace(s[|s| - 1]) then TrimEnd(s[..|s| - 1]) else s
  }

  function Trim(s: string): string {
    TrimEnd(TrimStart(s))
  }

  predicate Trimmed(s: string) {
    s == [] || (!IsSpace(s[0]) && !IsSpace(s[|s| - 1]))
  }

  lemma {:induction false} TrimStartMeaning(s: string)
    ensures TrimStart(s) == [] || !IsSpace(TrimStart(s)[0])
    ensures forall c :: c in TrimStart(s) ==> c in s
  {
    if s != [] && IsSpace(s[0]) { TrimStartMeaning(s[1..]); }
  }

  lemma {:induction false} TrimEndMeaning(s: string)
    ensures TrimEnd(s) <= s && (TrimEnd(s) == [] || !IsSpace(TrimEnd(s)[|TrimEnd(s)| - 1]))
  {
    if s != [] && IsSpace(s[|s| - 1]) { TrimEndMeaning(s[..|s| - 1]); }
  }

  lemma {:induction false} TrimMeaning(s: string)
    ensures Trimmed(Trim(s)) && (Trimmed(s) <==> Trim(s) == s)
  {
    TrimStartMeaning(s);
    TrimEndMeaning(TrimStart(s));
    assert forall i :: 0 <= i < |Trim(s)| ==> Trim(s)[i] == TrimStart(s)[i];
  }

  lemma {:induction false} TrimMembers(s: string, c: char)
    requires c !in s
    ensures c !in Trim(s)
  {
    TrimStartMeaning(s);
    TrimEndMeaning(TrimStart(s));
    assert forall i :: 0 <= i < |Trim(s)| ==> Trim(s)[i] == TrimStart(s)[i];
  }

  /** Split at the first occurrence. */
  function SplitOnce(s: string, sep: char): (r: Option<(string, string)>)
    ensures r.None? <==> sep !in s
    ensures r.Some? ==> s == r.value.0 + [sep] + r.value.1 && sep !in r.value.0
  {
    if s == [] then None
    else if s[0] == sep then Some(([], s[1..]))
    else match SplitOnce(s[1..], sep)
      case None => None
      case Some(parts) => Some(([s[0]] + parts.0, parts.1))
  }

  /** Split at the last occurrence. */
  function RSplitOnce(s: string, sep: char): (r: Option<(string, string)>)
    ensures r.None? <==> sep !in s
    ensures r.Some? ==> s == r.value.0 + [sep] + r.value.1 && sep !in r.value.1
  {
    if s == [] then None
    else
      var n := |s| - 1;
      if s[n] == sep then Some((s[..n], []))
      else match RSplitOnce(s[..n], sep)
        case None => None
        case Some(parts) => Some((parts.0, parts.1 + [s[n]]))
  }

  function Split(s: string, sep: char): (r: seq<string>)
    ensures |r| > 0
    decreases |s|
  {
    match SplitOnce(s, sep)
    case None => [s]
    case Some(parts) => [parts.0] + Split(parts.1, sep)
  }

  function Join(parts: seq<string>, sep: char): string
    requires |parts| > 0
  {
    if |parts| == 1 then parts[0] else parts[0] + [sep] + Join(parts[1..], sep)
  }

  lemma {:induction false} SplitOnceAt(front: string, sep: char, rest: string)
    requires sep !in front
    ensures SplitOnce(front + [sep] + rest, sep) == Some((front, rest))
  {
    var s := front + [sep] + rest;
    if front == [] {
      assert s[1..] == rest;
    } else {
      assert s[0] == front[0] && s[1..] == front[1..] + [sep] + rest;
      SplitOnceAt(front[1..], sep, rest);
      assert front == [front[0]] + front[1..];
    }
  }

  lemma {:induction false} RSplitOnceAt(front: string, sep: char, rest: string)
    requires sep !in rest
    ensures RSplitOnce(front + [sep] + rest, sep) == Some((front, rest))
  {
    var s := front + [sep] + rest;
    if rest == [] {
      assert s[..|s| - 1] == front;
    } else {
      var n := |rest| - 1;
      assert s[..|s| - 1] == front + [sep] + rest[..n] && s[|s| - 1] == rest[n];
      RSplitOnceAt(front, sep, rest[..n]);
      assert rest == rest[..n] + [rest[n]];
    }
  }

  /** Splitting undoes joining parts without the separator. */
  lemma {:induction false} SplitJoin(parts: seq<string>, sep: char)
    requires |parts| > 0 && forall i :: 0 <= i < |parts| ==> sep !in parts[i]
    ensures Split(Join(parts, sep), sep) == parts
  {
    if |parts| > 1 {
      SplitOnceAt(parts[0], sep, Join(parts[1..], sep));
      SplitJoin(parts[1..], sep);
    }
  }

  /** Joining undoes splitting, and the pieces hold no separator. */
  lemma {:induction false} JoinSplit(s: string, sep: char)
    ensures Join(Split(s, sep), sep) == s
    ensures forall i :: 0 <= i < |Split(s, sep)| ==> sep !in Split(s, sep)[i]
    decreases |s|
  {
    match SplitOnce(s, sep)
    case None =>
    case Some(parts) =>
      JoinSplit(parts.1, sep);
      assert ([parts.0] + Split(parts.1, sep))[1..] == Split(parts.1, sep);
  }

  lemma {:induction false} JoinMembers(parts: seq<string>, sep: char, c: char)
    requires |parts| > 0 && c != sep && forall i :: 0 <= i < |parts| ==> c !in parts[i]
    ensures c !in Join(parts, sep)
  {
    if |parts| > 1 { JoinMembers(parts[1..], sep, c); }
  }

  // ---- decimal numbers ----

  predicate IsDigit(c: char) {
    '0' <= c <= '9'
  }

  predicate Numeric(s: string) {
    forall i :: 0 <= i < |s| ==> IsDigit(s[i])
  }

  function Value(s: string): nat
    requires Numeric(s)
  {
    if s == [] then 0 else 10 * Value(s[..|s| - 1]) + (s[|s| - 1] - '0') as nat
  }

  function Digits(n: nat): (r: string)
    ensures Numeric(r) && r != []
  {
    if n < 10 then ['0' + n as char] else Digits(n / 10) + ['0' + (n % 10) as char]
  }

  lemma {:induction false} ValueDigits(n: nat)
    ensures Value(Digits(n)) == n
  {
    if n >= 10 {
      ValueDigits(n / 10);
      assert Digits(n)[..|Digits(n)| - 1] == Digits(n / 10);
    }
  }
}
