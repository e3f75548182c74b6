/** The few string operations the provider relies on: `sep.join`, `split(sep)`, `split()` and decimals. */
module Text {

  datatype Option<+T> = None | Some(value: T)

  function MapSeq<A, B>(f: A -> B, s: seq<A>): (t: seq<B>)
    ensures |t| == |s|
  {
    seq(|s|, i requires 0 <= i < |s| => f(s[i]))
  }

  lemma MapAt<A, B>(f: A -> B, s: seq<A>)
    ensures forall i :: 0 <= i < |s| ==> MapSeq(f, s)[i] == f(s[i])
  {
  }

  lemma MapAppend<A, B>(f: A -> B, s: seq<A>, t: seq<A>)
    ensures MapSeq(f, s + t) == MapSeq(f, s) + MapSeq(f, t)
  {
  }

  lemma MapOne<A, B>(f: A -> B, a: A)
    ensures MapSeq(f, [a]) == [f(a)]
  {
  }

  // ---------------------------------------------------------------------------------------------
  // join and split
  // ---------------------------------------------------------------------------------------------

  function Join(parts: seq<string>, sep: string): string {
    if parts == [] then ""
    else if |parts| == 1 then parts[0]
    else parts[0] + sep + Join(parts[1..], sep)
  }

  predicate OccursAt(s: string, sep: string, i: nat) {
    i + |sep| <= |s| && s[i..i + |sep|] == sep
  }

  /** Where `sep` first occurs at or after `from`, or the length of `s`. */
  function Find(s: string, sep: string, from: nat): (i: nat)
    requires sep != "" && from <= |s|
    ensures from <= i <= |s|
    ensures i < |s| ==> OccursAt(s, sep, i)
    ensures forall k :: from <= k < i ==> !OccursAt(s, sep, k)
    decreases |s| - from
  {
    if from == |s| || OccursAt(s, sep, from) then from else Find(s, sep, from + 1)
  }

  function Split(s: string, sep: string): seq<string>
    requires sep != ""
    decreases |s|
  {
    var i := Find(s, sep, 0);
    if i == |s| then [s] else [s[..i]] + Split(s[i + |sep|..], sep)
  }

  ghost predicate Without(parts: seq<string>, c: char) {
    forall i :: 0 <= i < |parts| ==> c !in parts[i]
  }

  /** No separator starts inside a part that has none of the separator's marking character. */
  lemma NoneInside(part: string, sep: string, rest: string, j: nat, k: nat)
    requires j < |sep| && sep[j] !in part && sep[j] !in sep[..j] && k < |part|
    ensures !OccursAt(part + sep + rest, sep, k) && !OccursAt(part, sep, k)
  {
    var s := part + sep + rest;
    if k + j < |part| {
      assert s[k + j] == part[k + j];
      assert k + |sep| <= |s| ==> s[k..k + |sep|][j] == s[k + j];
      assert k + |sep| <= |part| ==> part[k..k + |sep|][j] == part[k + j];
    } else {
      assert s[k + j] == sep[..j][k + j - |part|];
      assert k + |sep| <= |s| ==> s[k..k + |sep|][j] == s[k + j];
    }
  }

  lemma FindAfter(part: string, sep: string, rest: string, j: nat)
    requires j < |sep| && sep[j] !in part && sep[j] !in sep[..j]
    ensures Find(part + sep + rest, sep, 0) == |part|
    ensures Find(part, sep, 0) == |part|
  {
    forall k | 0 <= k < |part|
      ensures !OccursAt(part + sep + rest, sep, k) && !OccursAt(part, sep, k)
    {
      NoneInside(part, sep, rest, j, k);
    }
    assert OccursAt(part + sep + rest, sep, |part|);
  }

  lemma SplitOnce(part: string, sep: string, rest: string, j: nat)
    requires j < |sep| && sep[j] !in part && sep[j] !in sep[..j]
    ensures Split(part + sep + rest, sep) == [part] + Split(rest, sep)
    ensures Split(part, sep) == [part]
  {
    FindAfter(part, sep, rest, j);
    hide Find;
    var s := part + sep + rest;
    assert s[..|part|] == part && s[|part| + |sep|..] == rest;
  }

  /** Splitting undoes joining when no part has the separator's marking character `sep[j]`. */
  lemma {:induction false} SplitJoin(parts: seq<string>, sep: string, j: nat)
    requires parts != [] && j < |sep| && sep[j] !in sep[..j] && Without(parts, sep[j])
    ensures Split(Join(parts, sep), sep) == parts
    decreases |parts|
  {
    hide Split;
    if |parts| == 1 {
      SplitOnce(parts[0], sep, "", j);
    } else {
      SplitOnce(parts[0], sep, Join(parts[1..], sep), j);
      SplitJoin(parts[1..], sep, j);
      assert parts == [parts[0]] + parts[1..];
    }
  }

  // ---------------------------------------------------------------------------------------------
  // Words: `split()` without an argument
  // ---------------------------------------------------------------------------------------------

  predicate IsSpace(c: char) {
    c == ' ' || c == '\t' || c == '\n' || c == '\r' || c == 0x0b as char || c == 0x0c as char
  }

  function WordLength(s: string): (n: nat)
    ensures n <= |s|
    ensures forall i :: 0 <= i < n ==> !IsSpace(s[i])
    ensures n < |s| ==> IsSpace(s[n])
  {
    if s == "" || IsSpace(s[0]) then 0 else 1 + WordLength(s[1..])
  }

  function Words(s: string): seq<string>
    decreases |s|
  {
    if s == "" then []
    else if IsSpace(s[0]) then Words(s[1..])
    else [s[..WordLength(s)]] + Words(s[WordLength(s)..])
  }

  predicate IsWord(s: string) {
    s != "" && forall i :: 0 <= i < |s| ==> !IsSpace(s[i])
  }

  ghost predicate AllWords(parts: seq<string>) {
    forall i :: 0 <= i < |parts| ==> IsWord(parts[i])
  }

  /** Splitting yields words only. */
  lemma {:induction false} WordsAreWords(s: string)
    ensures AllWords(Words(s))
    decreases |s|
  {
    if s != "" {
      WordsAreWords(if IsSpace(s[0]) then s[1..] else s[WordLength(s)..]);
    }
  }

  lemma WordThenSpace(word: string, rest: string)
    requires IsWord(word) && (rest == "" || IsSpace(rest[0]))
    ensures WordLength(word + rest) == |word|
    ensures Words(word + rest) == [word] + Words(rest)
  {
    var s := word + rest;
    assert forall i :: 0 <= i < |word| ==> s[i] == word[i];
    assert rest != "" ==> s[|word|] == rest[0];
    assert s[..|word|] == word && s[|word|..] == rest;
  }

  /** Reading back a list of words recorded as one string. */
  lemma {:induction false} WordsJoin(words: seq<string>)
    requires AllWords(words)
    ensures Words(Join(words, " ")) == words
    decreases |words|
  {
    if |words| == 1 {
      WordThenSpace(words[0], "");
      assert words[0] + "" == words[0];
    } else if |words| > 1 {
      var rest := Join(words[1..], " ");
      WordThenSpace(words[0], " " + rest);
      assert (" " + rest)[1..] == rest;
      assert words[0] + " " + rest == words[0] + (" " + rest);
      WordsJoin(words[1..]);
    }
  }

  // ---------------------------------------------------------------------------------------------
  // Decimals
  // ---------------------------------------------------------------------------------------------

  predicate IsDigit(c: char) {
    '0' <= c <= '9'
  }

  predicate AllDigits(s: string) {
    forall i :: 0 <= i < |s| ==> IsDigit(s[i])
  }

  function DigitChar(d: nat): (c: char)
    requires d < 10
    ensures IsDigit(c) && DigitValue(c) == d
  {
    ('0' as int + d) as char
  }

  function DigitValue(c: char): (d: nat)
    requires IsDigit(c)
    ensures d < 10
  {
    c as int - '0' as int
  }

  /** `str(n)` */
  function NatText(n: nat): (s: string)
    ensures s != "" && AllDigits(s)
    ensures NatValue(s) == n
  {
    if n < 10 then [DigitChar(n)]
    else
      var s := NatText(n / 10) + [DigitChar(n % 10)];
      assert s[..|s| - 1] == NatText(n / 10);
      s
  }

  /** `int(s)` of a string of digits. */
  function NatValue(s: string): nat
    requires AllDigits(s)
  {
    if s == "" then 0 else 10 * NatValue(s[..|s| - 1]) + DigitValue(s[|s| - 1])
  }

  function IntText(n: int): string {
    if n < 0 then "-" + NatText(-n) else NatText(n)
  }

  function ParseInt(s: string): Option<int> {
    if s != "" && AllDigits(s) then Some(NatValue(s))
    else if |s| > 1 && s[0] == '-' && AllDigits(s[1..]) then Some(0 - NatValue(s[1..]))
    else None
  }

  lemma ParseIntText(n: int)
    ensures ParseInt(IntText(n)) == Some(n)
    ensures forall i :: 0 <= i < |IntText(n)| ==> IntText(n)[i] == '-' || IsDigit(IntText(n)[i])
  {
    if n < 0 {
      var t := NatText(-n);
      assert ("-" + t)[1..] == t;
      assert ("-" + t)[0] == '-';
    }
  }
}
