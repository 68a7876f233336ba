/** Names cut into words and into the languages they are written in
    (internal/route/geocode.go:705-720, 791-802; names are folded already). */
module Names {
  import opened Roads

  // ------------------------------------------------------------------ words

  predicate InWord(c: char) { 'a' <= c <= 'z' || '0' <= c <= '9' }

  /** The 26 letters from character 97 on and the ten digits from 48 on. */
  lemma LettersAndDigits(c: char)
    ensures InWord(c) <==> 97 <= c as int < 97 + 26 || 48 <= c as int < 48 + 10
  {
  }

  /** How many letters and digits a string starts with. */
  function Run(s: string): (n: nat)
    ensures n <= |s| && (forall k :: 0 <= k < n ==> InWord(s[k])) && (n < |s| ==> !InWord(s[n]))
  {
    if s == "" || !InWord(s[0]) then 0 else 1 + Run(s[1..])
  }

  /** tokens: the words of a string. */
  function Tokens(s: string): seq<string>
    decreases |s|
  {
    if s == "" then []
    else if !InWord(s[0]) then Tokens(s[1..])
    else [s[..Run(s)]] + Tokens(s[Run(s)..])
  }

  /** The characters i to j of a string are a word that cannot be extended. */
  ghost predicate WordAt(s: string, i: nat, j: nat) {
    && i < j <= |s| && (forall k :: i <= k < j ==> InWord(s[k]))
    && (i > 0 ==> !InWord(s[i - 1])) && (j < |s| ==> !InWord(s[j]))
  }

  lemma {:induction false} TokensAreWords(s: string, t: string)
    ensures t in Tokens(s) <==> exists i: nat, j: nat :: WordAt(s, i, j) && s[i..j] == t
    decreases |s|
  {
    if s != "" {
      var n := if InWord(s[0]) then Run(s) else 1;
      var rest := s[n..];
      TokensAreWords(rest, t);
      if t in Tokens(rest) {
        var i: nat, j: nat :| WordAt(rest, i, j) && rest[i..j] == t;
        Shifted(s, n, i, j);
        assert WordAt(s, n + i, n + j) && s[n + i..n + j] == t;
      }
      if InWord(s[0]) { assert WordAt(s, 0, n) && s[0..n] == s[..n]; }
      if i: nat, j: nat :| WordAt(s, i, j) && s[i..j] == t {
        if InWord(s[0]) && i < n {
          WordsDoNotOverlap(s, i, j, n);
        } else {
          WordStartsBehind(s, n, i, j);
          ShiftedBack(s, n, i, j);
          assert WordAt(rest, i - n, j - n) && rest[i - n..j - n] == t;
        }
      }
    }
  }

  lemma WordsDoNotOverlap(s: string, i: nat, j: nat, n: nat)
    requires WordAt(s, 0, n) && WordAt(s, i, j) && i < n
    ensures i == 0 && j == n
  {}

  /** A word of what stands behind position n, when n ends a word or is none itself. */
  lemma Shifted(s: string, n: nat, i: nat, j: nat)
    requires n <= |s| && WordAt(s[n..], i, j) && n > 0
    requires !InWord(s[n - 1]) || n == |s| || !InWord(s[n])
    ensures WordAt(s, n + i, n + j) && s[n + i..n + j] == s[n..][i..j]
  {
    var rest := s[n..];
    forall k | n + i <= k < n + j ensures InWord(s[k]) { assert InWord(rest[k - n]); }
    if i > 0 { assert rest[i - 1] == s[n + i - 1]; }
    assert rest[i] == s[n + i];
  }

  lemma WordStartsBehind(s: string, n: nat, i: nat, j: nat)
    requires 0 < n <= |s| && WordAt(s, i, j)
    requires if InWord(s[0]) then n == Run(s) && n <= i else n == 1
    ensures n <= i
  {
    assert InWord(s[i]);
  }

  lemma ShiftedBack(s: string, n: nat, i: nat, j: nat)
    requires n <= i && WordAt(s, i, j)
    ensures WordAt(s[n..], i - n, j - n) && s[n..][i - n..j - n] == s[i..j]
  {
    hide InWord;
    var rest := s[n..];
    forall k | i - n <= k < j - n ensures InWord(rest[k]) { assert rest[k] == s[k + n]; }
    assert i > n ==> rest[i - n - 1] == s[i - 1];
    assert j < |s| ==> rest[j - n] == s[j];
  }

  /** A word of a prefix, as far as it goes on in the whole. */
  lemma WordGrows(s: string, q: string, i: nat, j: nat)
    requires q <= s && WordAt(q, i, j)
    ensures j <= j + Run(s[j..]) <= |s| && WordAt(s, i, j + Run(s[j..]))
  {
    var k := j + Run(s[j..]);
    forall c | i <= c < k ensures InWord(s[c]) {
      if c < j { assert s[c] == q[c]; } else { assert s[c] == s[j..][c - j]; }
    }
    if i > 0 { assert s[i - 1] == q[i - 1]; }
    if k < |s| { assert s[k] == s[j..][k - j]; }
  }

  lemma CutOfPrefix(s: string, q: string, i: nat, j: nat, k: nat)
    requires q <= s && i <= j <= |q| && j <= k <= |s|
    ensures q[i..j] <= s[i..k]
  {
    assert q == s[..|q|];
  }

  /** Every word of a prefix is a prefix of a word of the whole. */
  lemma PrefixWords(s: string, q: string, t: string)
    requires q <= s && t in Tokens(q)
    ensures exists u :: u in Tokens(s) && t <= u
  {
    hide Tokens, Run;
    TokensAreWords(q, t);
    var i: nat, j: nat :| WordAt(q, i, j) && q[i..j] == t;
    var k := j + Run(s[j..]);
    WordGrows(s, q, i, j);
    TokensAreWords(s, s[i..k]);
    hide WordAt;
    CutOfPrefix(s, q, i, j, k);
  }

  // ------------------------------------------------------------------ parts of a name

  /** p is cut out of s, not through the middle of a word. */
  ghost predicate PartAt(p: string, s: string, o: nat) {
    && o + |p| <= |s| && s[o..o + |p|] == p
    && (o > 0 && |p| > 0 ==> !InWord(s[o - 1])) && (o + |p| < |s| && |p| > 0 ==> !InWord(s[o + |p|]))
  }

  ghost predicate PartOf(p: string, s: string) { exists o: nat :: PartAt(p, s, o) }

  lemma PartOfPart(p: string, m: string, s: string)
    requires PartOf(p, m) && PartOf(m, s)
    ensures PartOf(p, s)
  {
    var a: nat :| PartAt(p, m, a);
    var b: nat :| PartAt(m, s, b);
    forall k | 0 <= k < |p| ensures s[a + b + k] == p[k] {
      assert m[a + k] == p[k] && s[b..b + |m|][a + k] == m[a + k];
    }
    if |p| > 0 {
      if a > 0 { assert m[a - 1] == s[b..b + |m|][a - 1]; }
      if a + |p| < |m| { assert m[a + |p|] == s[b..b + |m|][a + |p|]; }
    }
    assert PartAt(p, s, a + b);
  }

  lemma PartWordAt(p: string, s: string, o: nat, i: nat, j: nat)
    requires PartAt(p, s, o) && WordAt(p, i, j)
    ensures WordAt(s, o + i, o + j) && s[o + i..o + j] == p[i..j]
  {
    forall k | 0 <= k < |p| ensures s[o + k] == p[k] { assert s[o..o + |p|][k] == p[k]; }
    assert i > 0 ==> s[o + i - 1] == p[i - 1];
    assert j < |p| ==> s[o + j] == p[j];
    forall k | o + i <= k < o + j ensures InWord(s[k]) { assert s[o + (k - o)] == p[k - o]; }
  }

  /** The words of a part are words of the whole. */
  lemma PartWords(p: string, s: string, t: string)
    requires PartOf(p, s) && t in Tokens(p)
    ensures t in Tokens(s)
  {
    hide Tokens, PartAt;
    TokensAreWords(p, t);
    TokensAreWords(s, t);
    var o: nat :| PartAt(p, s, o);
    var i: nat, j: nat :| WordAt(p, i, j) && p[i..j] == t;
    PartWordAt(p, s, o, i, j);
  }

  predicate IsSpace(c: char) { c in " \t\n\r\U{0B}\U{0C}\U{85}\U{A0}" }

  function TrimLeft(s: string): string { if s != "" && IsSpace(s[0]) then TrimLeft(s[1..]) else s }

  function TrimRight(s: string): string { if s != "" && IsSpace(s[|s| - 1]) then TrimRight(s[..|s| - 1]) else s }

  function Trim(s: string): string { TrimRight(TrimLeft(s)) }

  lemma WhiteSpace(c: char)
    ensures IsSpace(c) <==> 9 <= c as int <= 13 || c as int in {32, 0x85, 0xA0}
  {
    assert " \t\n\r\U{0B}\U{0C}\U{85}\U{A0}" == [' ', '\t', '\n', '\r', '\U{0B}', '\U{0C}', '\U{85}', '\U{A0}'];
  }

  predicate AllSpace(s: string) { forall i :: 0 <= i < |s| ==> IsSpace(s[i]) }

  lemma {:induction false} TrimLeftIsExact(s: string) returns (l: string)
    ensures s == l + TrimLeft(s) && AllSpace(l) && (TrimLeft(s) != "" ==> !IsSpace(TrimLeft(s)[0]))
  {
    l := "";
    if s != "" && IsSpace(s[0]) {
      l := TrimLeftIsExact(s[1..]);
      l := [s[0]] + l;
    }
  }

  lemma {:induction false} TrimRightIsExact(s: string) returns (r: string)
    ensures s == TrimRight(s) + r && AllSpace(r)
    ensures TrimRight(s) != "" ==> !IsSpace(TrimRight(s)[|TrimRight(s)| - 1]) && TrimRight(s)[0] == s[0]
  {
    r := "";
    if s != "" && IsSpace(s[|s| - 1]) {
      r := TrimRightIsExact(s[..|s| - 1]);
      r := r + [s[|s| - 1]];
    }
  }

  /** Trimmed is all the white space at either end, and nothing else. */
  lemma TrimIsExact(s: string) returns (l: string, r: string)
    ensures s == l + Trim(s) + r && AllSpace(l) && AllSpace(r)
    ensures Trim(s) != "" ==> !IsSpace(Trim(s)[0]) && !IsSpace(Trim(s)[|Trim(s)| - 1])
  {
    l := TrimLeftIsExact(s);
    r := TrimRightIsExact(TrimLeft(s));
  }

  lemma {:induction false} TrimLeftIsPart(s: string)
    ensures PartOf(TrimLeft(s), s)
  {
    if s != "" && IsSpace(s[0]) {
      TrimLeftIsPart(s[1..]);
      assert PartAt(s[1..], s, 1);
      PartOfPart(TrimLeft(s), s[1..], s);
    } else {
      assert PartAt(s, s, 0);
    }
  }

  lemma {:induction false} TrimRightIsPart(s: string)
    ensures PartOf(TrimRight(s), s)
  {
    if s != "" && IsSpace(s[|s| - 1]) {
      TrimRightIsPart(s[..|s| - 1]);
      assert PartAt(s[..|s| - 1], s, 0);
      PartOfPart(TrimRight(s), s[..|s| - 1], s);
    } else {
      assert PartAt(s, s, 0);
    }
  }

  lemma TrimIsPart(s: string)
    ensures PartOf(Trim(s), s)
  {
    TrimLeftIsPart(s);
    TrimRightIsPart(TrimLeft(s));
    PartOfPart(Trim(s), TrimLeft(s), s);
  }

  /** Where a string first stands in another. */
  function Find(s: string, sub: string): (o: Option<nat>)
    ensures o.Some? ==> o.value + |sub| <= |s| && s[o.value..o.value + |sub|] == sub
  {
    if |s| < |sub| then None
    else if sub <= s then Some(0)
    else match Find(s[1..], sub)
      case None => None
      case Some(o) => Some(o + 1)
  }

  lemma {:induction false} FindMissesNothing(s: string, sub: string, o: nat)
    requires o + |sub| <= |s| && s[o..o + |sub|] == sub
    ensures Find(s, sub).Some? && Find(s, sub).value <= o
  {
    assert o == 0 ==> s[0..|sub|] == s[..|sub|];
    if o > 0 && !(sub <= s) {
      assert s[1..][o - 1..o - 1 + |sub|] == sub;
      FindMissesNothing(s[1..], sub, o - 1);
    }
  }

  /** sub stands in s, from character o on. */
  predicate StandsAt(s: string, sub: string, o: nat) { o + |sub| <= |s| && s[o..o + |sub|] == sub }

  ghost predicate Contains(s: string, sub: string) { exists o: nat :: StandsAt(s, sub, o) }

  lemma FindFinds(s: string, sub: string)
    ensures Find(s, sub).Some? <==> Contains(s, sub)
  {
    if Find(s, sub).Some? { assert StandsAt(s, sub, Find(s, sub).value); }
    if Contains(s, sub) {
      var o: nat :| StandsAt(s, sub, o);
      FindMissesNothing(s, sub, o);
    }
  }

  function Split(s: string, sep: string): seq<string>
    requires sep != ""
    decreases |s|
  {
    match Find(s, sep)
    case None => [s]
    case Some(o) => [s[..o]] + Split(s[o + |sep|..], sep)
  }

  predicate IsSeparator(sep: string) { sep != "" && !InWord(sep[0]) && !InWord(sep[|sep| - 1]) }

  lemma PartsAround(s: string, sep: string, o: nat)
    requires IsSeparator(sep) && o + |sep| <= |s| && s[o..o + |sep|] == sep
    ensures PartAt(s[..o], s, 0) && PartAt(s[o + |sep|..], s, o + |sep|)
  {
    assert s[o] == sep[0] && s[o + |sep| - 1] == sep[|sep| - 1];
  }

  lemma {:induction false} SplitIntoParts(s: string, sep: string, p: string)
    requires IsSeparator(sep) && p in Split(s, sep)
    ensures PartOf(p, s)
    decreases |s|
  {
    match Find(s, sep)
    case None => assert PartAt(s, s, 0);
    case Some(o) =>
      PartsAround(s, sep, o);
      var rest := s[o + |sep|..];
      if p in Split(rest, sep) {
        SplitIntoParts(rest, sep, p);
        PartOfPart(p, rest, s);
      }
  }

  const SEPARATORS: seq<string> := [" - ", " / ", " \U{2013} "]

  function Trimmed(parts: seq<string>): seq<string> {
    if parts == [] then []
    else (if Trim(parts[0]) != "" then [Trim(parts[0])] else []) + Trimmed(parts[1..])
  }

  lemma {:induction false} TrimmedComesFrom(parts: seq<string>, a: string)
    requires a in Trimmed(parts)
    ensures exists p :: p in parts && a == Trim(p)
  {
    if a != Trim(parts[0]) { TrimmedComesFrom(parts[1..], a); }
  }

  /** splitNames: the names a bilingual name is made of, by the first separator that stands in it. */
  function SplitNames(norm: string): seq<string> {
    var parts :=
      if Find(norm, SEPARATORS[0]).Some? then Trimmed(Split(norm, SEPARATORS[0]))
      else if Find(norm, SEPARATORS[1]).Some? then Trimmed(Split(norm, SEPARATORS[1]))
      else if Find(norm, SEPARATORS[2]).Some? then Trimmed(Split(norm, SEPARATORS[2]))
      else [];
    if |parts| < 2 then [] else parts
  }

  lemma HalvesAreParts(norm: string, a: string)
    requires a in SplitNames(norm)
    ensures PartOf(a, norm)
  {
    var sep := if Find(norm, SEPARATORS[0]).Some? then SEPARATORS[0]
               else if Find(norm, SEPARATORS[1]).Some? then SEPARATORS[1] else SEPARATORS[2];
    assert IsSeparator(sep);
    TrimmedComesFrom(Split(norm, sep), a);
    var p :| p in Split(norm, sep) && a == Trim(p);
    SplitIntoParts(norm, sep, p);
    TrimIsPart(p);
    PartOfPart(a, p, norm);
  }

  // ------------------------------------------------------------------ names put together

  /** Some names written as one, the separator between them. */
  function Joined(names: seq<string>, sep: string): string
    requires names != []
  {
    if |names| == 1 then names[0] else names[0] + sep + Joined(names[1..], sep)
  }

  /** The mark of a separator, and those of the separators tried before it. */
  function Marks(sep: string): set<char> {
    if sep == " - " then {'-'} else if sep == " / " then {'-', '/'} else {'-', '/', '\U{2013}'}
  }

  /** A name that is trimmed and holds none of these marks. */
  ghost predicate Single(a: string, marks: set<char>) {
    && a != "" && !IsSpace(a[0]) && !IsSpace(a[|a| - 1])
    && forall i :: 0 <= i < |a| ==> a[i] !in marks
  }

  lemma TrimmedAlready(a: string, sep: string)
    requires Single(a, Marks(sep))
    ensures Trim(a) == a
  {
  }

  /** A separator is a space, a mark, a space. */
  lemma MarkOf(s: string, sep: string, o: nat)
    requires sep in SEPARATORS && StandsAt(s, sep, o)
    ensures o + 2 < |s| && s[o] == ' ' && s[o + 1] == sep[1] && sep[1] in Marks(sep)
  {
    assert s[o..o + |sep|][0] == sep[0] && s[o..o + |sep|][1] == sep[1];
  }

  lemma NoMarkInside(a: string, sep: string, rest: string, o: nat)
    requires Single(a, Marks(sep)) && sep in SEPARATORS && o < |a|
    ensures (a + sep + rest)[o + 1] != sep[1]
  {
    var s := a + sep + rest;
    if o + 1 < |a| { assert s[o + 1] == a[o + 1]; } else { assert s[o + 1] == sep[0]; }
  }

  /** The first separator is the one after the first name. */
  lemma SeparatorIsFound(a: string, sep: string, rest: string)
    requires Single(a, Marks(sep)) && sep in SEPARATORS
    ensures Find(a + sep + rest, sep) == Some(|a|)
  {
    var s := a + sep + rest;
    assert s[|a|..|a| + |sep|] == sep;
    FindMissesNothing(s, sep, |a|);
    var o := Find(s, sep).value;
    if o < |a| { NoMarkInside(a, sep, rest, o); }
    MarkOf(s, sep, o);
  }

  lemma NoSeparator(a: string, sep: string)
    requires Single(a, Marks(sep)) && sep in SEPARATORS
    ensures Find(a, sep) == None
  {
    if Find(a, sep).Some? { MarkOf(a, sep, Find(a, sep).value); }
  }

  lemma {:induction false} SplitUndoesJoined(names: seq<string>, sep: string)
    requires names != [] && sep in SEPARATORS && forall k :: 0 <= k < |names| ==> Single(names[k], Marks(sep))
    ensures Split(Joined(names, sep), sep) == names
  {
    hide Single, Find;
    if |names| == 1 {
      NoSeparator(names[0], sep);
    } else {
      var rest := Joined(names[1..], sep);
      SeparatorIsFound(names[0], sep, rest);
      SplitUndoesJoined(names[1..], sep);
      var s := names[0] + sep + rest;
      assert s[..|names[0]|] == names[0] && s[|names[0]| + |sep|..] == rest;
    }
  }

  lemma {:induction false} TrimmedChangesNothing(names: seq<string>, sep: string)
    requires forall k :: 0 <= k < |names| ==> Single(names[k], Marks(sep))
    ensures Trimmed(names) == names
  {
    if names != [] {
      TrimmedAlready(names[0], sep);
      TrimmedChangesNothing(names[1..], sep);
    }
  }

  /** Whatever mark of its separator or an earlier one stands in a joined name is its separator's. */
  lemma {:induction false} OnlyItsMark(names: seq<string>, sep: string, p: nat)
    requires names != [] && sep in SEPARATORS && forall k :: 0 <= k < |names| ==> Single(names[k], Marks(sep))
    requires p < |Joined(names, sep)| && Joined(names, sep)[p] in Marks(sep)
    ensures Joined(names, sep)[p] == sep[1]
  {
    if |names| > 1 {
      var s, n, rest := Joined(names, sep), |names[0]|, Joined(names[1..], sep);
      assert s == names[0] + sep + rest;
      if n + |sep| <= p {
        assert s[p] == rest[p - n - |sep|];
        OnlyItsMark(names[1..], sep, p - n - |sep|);
      } else if n <= p {
        assert s[p] == sep[p - n];
      }
    }
  }

  lemma NoOtherSeparator(names: seq<string>, sep: string, other: string)
    requires names != [] && sep in SEPARATORS && forall k :: 0 <= k < |names| ==> Single(names[k], Marks(sep))
    requires other in SEPARATORS && other != sep && other[1] in Marks(sep)
    ensures Find(Joined(names, sep), other) == None
  {
    hide Joined, Single, Find;
    var s := Joined(names, sep);
    if Find(s, other).Some? {
      var o := Find(s, other).value;
      MarkOf(s, other, o);
      OnlyItsMark(names, sep, o + 1);
    }
  }

  /** Names written side by side are taken apart again, each by itself, by the first of " - ", " / " and the dash that
      stands between them: the marks of later ones may stand in the names. */
  lemma JoinedIsTakenApart(names: seq<string>, sep: string)
    requires |names| >= 2 && sep in SEPARATORS && forall k :: 0 <= k < |names| ==> Single(names[k], Marks(sep))
    ensures SplitNames(Joined(names, sep)) == names
  {
    SplitUndoesJoined(names, sep);
    TrimmedChangesNothing(names, sep);
    SeparatorIsFound(names[0], sep, Joined(names[1..], sep));
    assert Find(Joined(names, sep), sep).Some?;
    hide Joined, Single, Find, Split, Trimmed;
    if sep != " - " { NoOtherSeparator(names, sep, " - "); }
    if sep != " - " && sep != " / " { NoOtherSeparator(names, sep, " / "); }
  }
}
