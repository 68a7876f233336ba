/** The geocoder's token index: the sorted words of every name, the range of a prefix, and the candidates
    a query draws from the rarest of its words (internal/route/geocode.go:498-533, 542-588, 667-676,
    726-764). */
module Geocoder {
  import opened Roads
  import opened Names

  // ------------------------------------------------------------------ entries

  datatype Kind = Trail | Hut | Crag | OtherKind

  /** An entry as build finds it: its folded name, its folded other names. */
  datatype Entry = Entry(norm: string, also: seq<string>, kind: Kind)

  function AlsoNames(also: seq<string>): seq<string> {
    if also == [] then [] else [also[0]] + SplitNames(also[0]) + AlsoNames(also[1..])
  }

  function AlsoTokens(also: seq<string>): seq<string> {
    if also == [] then [] else Tokens(also[0]) + AlsoTokens(also[1..])
  }

  function KindWords(k: Kind): seq<string> {
    match k
    case Trail => ["trail", "sentiero"]
    case Hut => ["rifugio", "hutte", "hut", "baita"]
    case Crag => ["falesia", "crag", "klettergarten", "arrampicata"]
    case OtherKind => []
  }

  /** The other ways of writing the name, each of which answers like the name itself. */
  function Alts(e: Entry): seq<string> { SplitNames(e.norm) + AlsoNames(e.also) }

  /** The words the entry is filed under. */
  function Words(e: Entry): seq<string> { Tokens(e.norm) + AlsoTokens(e.also) + KindWords(e.kind) }

  predicate StartsSome(ts: seq<string>, qt: string) { exists t :: t in ts && qt <= t }

  /** matchRank: 4 the whole name or one of its forms, 3 a prefix of one, 2 every word of the query starts
      a word of the entry, 1 the query somewhere inside, 0 nothing. */
  function MatchRank(e: Entry, q: string, qtoks: seq<string>): nat {
    if e.norm == q then 4
    else if q <= e.norm then 3
    else if q in Alts(e) then 4
    else if StartsSome(Alts(e), q) then 3
    else if forall qt :: qt in qtoks ==> StartsSome(Words(e), qt) then 2
    else if Find(e.norm, q).Some? then 1
    else 0
  }

  // ------------------------------------------------------------------ what a rank means

  /** One of the names an entry goes by: its own, another, or a part of either where it is written in two languages. */
  ghost predicate GoesBy(e: Entry, a: string) {
    || a == e.norm || a in SplitNames(e.norm)
    || exists k :: 0 <= k < |e.also| && (a == e.also[k] || a in SplitNames(e.also[k]))
  }

  /** A word of one of its names, or one of the words for what it is. */
  ghost predicate HasWord(e: Entry, u: string) {
    || u in Tokens(e.norm) || (exists k :: 0 <= k < |e.also| && u in Tokens(e.also[k]))
    || (e.kind == Trail && u in {"trail", "sentiero"})
    || (e.kind == Hut && u in {"rifugio", "hutte", "hut", "baita"})
    || (e.kind == Crag && u in {"falesia", "crag", "klettergarten", "arrampicata"})
  }

  lemma {:induction false} AlsoNamesAre(also: seq<string>, a: string)
    ensures a in AlsoNames(also) <==> exists k :: 0 <= k < |also| && (a == also[k] || a in SplitNames(also[k]))
  {
    hide SplitNames;
    if also != [] {
      AlsoNamesAre(also[1..], a);
      assert forall k :: 0 < k < |also| ==> also[k] == also[1..][k - 1];
    }
  }

  lemma {:induction false} AlsoTokensAre(also: seq<string>, u: string)
    ensures u in AlsoTokens(also) <==> exists k :: 0 <= k < |also| && u in Tokens(also[k])
  {
    hide Tokens;
    if also != [] {
      AlsoTokensAre(also[1..], u);
      assert forall k :: 0 < k < |also| ==> also[k] == also[1..][k - 1];
    }
  }

  lemma NamesAre(e: Entry, a: string)
    ensures a == e.norm || a in Alts(e) <==> GoesBy(e, a)
  {
    hide SplitNames;
    AlsoNamesAre(e.also, a);
  }

  lemma WordsAre(e: Entry, u: string)
    ensures u in Words(e) <==> HasWord(e, u)
  {
    hide Tokens;
    AlsoTokensAre(e.also, u);
  }

  /** The query starts one of its names. */
  ghost predicate StartsAName(e: Entry, q: string) { exists a :: GoesBy(e, a) && q <= a }

  /** Each word of the query starts one of its words. */
  ghost predicate AnswersEachWord(e: Entry, qtoks: seq<string>) {
    forall qt :: qt in qtoks ==> exists u :: HasWord(e, u) && qt <= u
  }

  lemma StartsAre(e: Entry, q: string)
    ensures q <= e.norm || StartsSome(Alts(e), q) <==> StartsAName(e, q)
  {
    hide Alts, GoesBy;
    forall a ensures a == e.norm || a in Alts(e) <==> GoesBy(e, a) { NamesAre(e, a); }
    if q <= e.norm { assert GoesBy(e, e.norm); }
    if StartsSome(Alts(e), q) {
      var a :| a in Alts(e) && q <= a;
      assert GoesBy(e, a);
    }
  }

  lemma EachWordIs(e: Entry, qtoks: seq<string>)
    ensures (forall qt :: qt in qtoks ==> StartsSome(Words(e), qt)) <==> AnswersEachWord(e, qtoks)
  {
    hide Words, HasWord;
    forall u ensures u in Words(e) <==> HasWord(e, u) { WordsAre(e, u); }
  }

  /** What each rank says of the names and the words of an entry. */
  lemma RanksMean(e: Entry, q: string, qtoks: seq<string>)
    ensures MatchRank(e, q, qtoks) <= 4
    ensures MatchRank(e, q, qtoks) == 4 <==> GoesBy(e, q) && (q <= e.norm ==> q == e.norm)
    ensures MatchRank(e, q, qtoks) >= 3 <==> StartsAName(e, q)
    ensures MatchRank(e, q, qtoks) >= 2 <==> StartsAName(e, q) || AnswersEachWord(e, qtoks)
    ensures MatchRank(e, q, qtoks) >= 1 <==> StartsAName(e, q) || AnswersEachWord(e, qtoks) || Contains(e.norm, q)
  {
    hide Alts, Words, GoesBy, HasWord, StartsSome, StartsAName, AnswersEachWord, Contains, Find;
    NamesAre(e, q);
    StartsAre(e, q);
    EachWordIs(e, qtoks);
    FindFinds(e.norm, q);
    OwnNameStarts(e, q);
  }

  lemma OwnNameStarts(e: Entry, q: string)
    ensures q in Alts(e) ==> StartsSome(Alts(e), q)
  {
  }

  lemma {:induction false} AlsoIsFiled(also: seq<string>, a: string, t: string)
    requires a in AlsoNames(also) && t in Tokens(a)
    ensures t in AlsoTokens(also)
  {
    if a == also[0] {
    } else if a in SplitNames(also[0]) {
      HalvesAreParts(also[0], a);
      PartWords(a, also[0], t);
    } else {
      AlsoIsFiled(also[1..], a, t);
    }
  }

  /** Every word of a form of the name is filed. */
  lemma FormsAreFiled(e: Entry, a: string, t: string)
    requires (a == e.norm || a in Alts(e)) && t in Tokens(a)
    ensures t in Words(e)
  {
    if a in SplitNames(e.norm) {
      HalvesAreParts(e.norm, a);
      PartWords(a, e.norm, t);
    } else if a in AlsoNames(e.also) {
      AlsoIsFiled(e.also, a, t);
    }
  }

  /** Whatever ranks 2, 3 or 4 is filed under a word that starts with each word of the query: through the
      name, a bilingual half of it, another name or half of that, or the word for its kind. */
  lemma RankedIsFiled(e: Entry, q: string, qt: string)
    requires MatchRank(e, q, Tokens(q)) >= 2 && qt in Tokens(q)
    ensures StartsSome(Words(e), qt)
  {
    hide Tokens, Words, Alts;
    if q <= e.norm {
      PrefixWords(e.norm, q, qt);
      var u :| u in Tokens(e.norm) && qt <= u;
      FormsAreFiled(e, e.norm, u);
    } else if q in Alts(e) || StartsSome(Alts(e), q) {
      var a := if q in Alts(e) then q else var x :| x in Alts(e) && q <= x; x;
      PrefixWords(a, q, qt);
      var u :| u in Tokens(a) && qt <= u;
      FormsAreFiled(e, a, u);
    }
  }

  // ------------------------------------------------------------------ the order of words

  /** Go's order of strings. */
  predicate Less(a: string, b: string) {
    if b == "" then false
    else if a == "" then true
    else if a[0] != b[0] then a[0] < b[0]
    else Less(a[1..], b[1..])
  }

  /** One word is before another if it is a proper part of its front, or smaller where they first differ. */
  lemma {:induction false} LessIsLexicographic(a: string, b: string, k: nat)
    requires k <= |a| && k <= |b| && a[..k] == b[..k] && (k < |a| && k < |b| ==> a[k] != b[k])
    ensures Less(a, b) <==> k < |b| && (k == |a| || a[k] < b[k])
  {
    if k > 0 {
      assert a[0] == a[..k][0] == b[..k][0] == b[0];
      assert a[1..][..k - 1] == a[..k][1..] == b[..k][1..] == b[1..][..k - 1];
      LessIsLexicographic(a[1..], b[1..], k - 1);
    }
  }

  lemma {:induction false} LessIsTotal(a: string, b: string)
    ensures Less(a, b) || a == b || Less(b, a)
    ensures !(Less(a, b) && Less(b, a)) && !Less(a, a)
  {
    if a != "" && b != "" && a[0] == b[0] {
      LessIsTotal(a[1..], b[1..]);
      assert a == [a[0]] + a[1..] && b == [b[0]] + b[1..];
    }
    if a != "" { LessIsTotal(a[1..], a[1..]); }
  }

  lemma {:induction false} LessIsTransitive(a: string, b: string, c: string)
    requires Less(a, b) && Less(b, c)
    ensures Less(a, c)
  {
    if a != "" && a[0] == b[0] == c[0] { LessIsTransitive(a[1..], b[1..], c[1..]); }
  }

  /** What starts with p stands together: nothing behind it starts with p once one has not. */
  lemma {:induction false} PrefixesStandTogether(p: string, a: string, b: string)
    requires Less(p, a) && !(p <= a) && Less(a, b)
    ensures Less(p, b) && !(p <= b)
  {
    LessIsTransitive(p, a, b);
    if p != "" && p[0] == a[0] == b[0] {
      assert p[1..] <= a[1..] ==> p <= a by { assert p == [p[0]] + p[1..] && a == [a[0]] + a[1..]; }
      PrefixesStandTogether(p[1..], a[1..], b[1..]);
      TailsFollow(p, b);
    }
  }

  lemma TailsFollow(p: string, b: string)
    requires p != "" && b != ""
    ensures p <= b ==> p[1..] <= b[1..]
  {}

  lemma {:induction false} PrefixIsNotGreater(p: string, a: string)
    requires p <= a
    ensures !Less(a, p)
  {
    if p != "" {
      assert p[0] == a[0] && p[1..] <= a[1..];
      PrefixIsNotGreater(p[1..], a[1..]);
    }
  }

  // ------------------------------------------------------------------ the index

  datatype Ref = Ref(tok: string, id: nat)

  function RefsOf(words: seq<string>, id: nat): seq<Ref> {
    if words == [] then [] else [Ref(words[0], id)] + RefsOf(words[1..], id)
  }

  lemma {:induction false} RefsOfHolds(words: seq<string>, id: nat, r: Ref)
    ensures r in RefsOf(words, id) <==> r.id == id && r.tok in words
  {
    if words != [] { RefsOfHolds(words[1..], id, r); }
  }

  /** Every word of every entry. */
  function Refs(entries: seq<Entry>): seq<Ref> {
    if entries == [] then [] else Refs(entries[..|entries| - 1]) + RefsOf(Words(entries[|entries| - 1]), |entries| - 1)
  }

  lemma {:induction false} RefsHold(entries: seq<Entry>, r: Ref)
    ensures r in Refs(entries) <==> r.id < |entries| && r.tok in Words(entries[r.id])
  {
    if entries != [] {
      var last := |entries| - 1;
      RefsHold(entries[..last], r);
      RefsOfHolds(Words(entries[last]), last, r);
    }
  }

  predicate Before(a: Ref, b: Ref) { Less(a.tok, b.tok) || (a.tok == b.tok && a.id <= b.id) }

  predicate Sorted(s: seq<Ref>) { forall i, j :: 0 <= i < j < |s| ==> Before(s[i], s[j]) }

  lemma BeforeIsTransitive(a: Ref, b: Ref, c: Ref)
    requires Before(a, b) && Before(b, c)
    ensures Before(a, c)
  {
    if Less(a.tok, b.tok) && Less(b.tok, c.tok) { LessIsTransitive(a.tok, b.tok, c.tok); }
  }

  /** A new word among sorted ones. */
  function Placed(s: seq<Ref>, r: Ref): seq<Ref> {
    if s == [] || Before(r, s[0]) then [r] + s else [s[0]] + Placed(s[1..], r)
  }

  lemma {:induction false} PlacedKeeps(s: seq<Ref>, r: Ref)
    ensures multiset(Placed(s, r)) == multiset(s) + multiset{r}
  {
    if s != [] && !Before(r, s[0]) {
      PlacedKeeps(s[1..], r);
      assert s == [s[0]] + s[1..];
    }
  }

  lemma SortedInFront(x: Ref, t: seq<Ref>)
    requires Sorted(t) && forall j :: 0 <= j < |t| ==> Before(x, t[j])
    ensures Sorted([x] + t)
  {}

  lemma {:induction false} PlacedIsSorted(s: seq<Ref>, r: Ref)
    requires Sorted(s)
    ensures Sorted(Placed(s, r))
  {
    hide Less;
    if s == [] {
    } else if Before(r, s[0]) {
      forall j | 0 <= j < |s| ensures Before(r, s[j]) { if j > 0 { BeforeIsTransitive(r, s[0], s[j]); } }
      SortedInFront(r, s);
    } else {
      PlacedIsSorted(s[1..], r);
      PlacedKeeps(s[1..], r);
      LessIsTotal(r.tok, s[0].tok);
      var t := Placed(s[1..], r);
      forall j | 0 <= j < |t| ensures Before(s[0], t[j]) {
        assert t[j] in multiset(t);
        assert t[j] in multiset(s[1..]) || t[j] == r;
        if t[j] != r {
          var k :| 0 <= k < |s[1..]| && s[1..][k] == t[j];
          assert s[k + 1] == t[j];
        }
      }
      SortedInFront(s[0], t);
    }
  }

  lemma NothingSorted()
    ensures Sorted([])
  {}

  /** The index of some entries: all their words, in order. */
  ghost predicate IsIndex(index: seq<Ref>, entries: seq<Entry>) {
    Sorted(index) && multiset(index) == multiset(Refs(entries))
  }

  /** build: whatever the index held before is gone; every word of every entry is filed, and sorted. */
  method Build(entries: seq<Entry>) returns (index: seq<Ref>)
    ensures IsIndex(index, entries)
  {
    hide Sorted, Placed, Before;
    index := [];
    var refs := Refs(entries);
    NothingSorted();
    for i := 0 to |refs|
      invariant Sorted(index) && multiset(index) == multiset(refs[..i])
    {
      PlacedIsSorted(index, refs[i]);
      PlacedKeeps(index, refs[i]);
      assert refs[..i + 1] == refs[..i] + [refs[i]];
      index := Placed(index, refs[i]);
    }
    assert refs[..|refs|] == refs;
  }

  // ------------------------------------------------------------------ the range of a prefix

  /** sort.Search: the first position from which on f holds. */
  method FirstFrom(n: nat, f: nat -> bool) returns (i: nat)
    requires forall a: nat, b: nat :: a < b < n && f(a) ==> f(b)
    ensures i <= n && forall k: nat :: k < n ==> (f(k) <==> i <= k)
  {
    i := 0;
    var j := n;
    while i < j
      invariant i <= j <= n
      invariant forall k: nat :: k < i ==> !f(k)
      invariant j < n ==> f(j)
    {
      var h := (i + j) / 2;
      if !f(h) { i := h + 1; } else { j := h; }
    }
  }

  /** prefixRange: exactly the positions whose word starts with p. */
  method PrefixRange(index: seq<Ref>, p: string) returns (lo: nat, hi: nat)
    requires Sorted(index)
    ensures lo <= hi <= |index|
    ensures forall k :: 0 <= k < |index| ==> (p <= index[k].tok <==> lo <= k < hi)
  {
    var atLeast := (k: nat) => k < |index| && (index[k].tok == p || Less(p, index[k].tok));
    var beyond := (k: nat) => k < |index| && Less(p, index[k].tok) && !(p <= index[k].tok);
    forall a: nat, b: nat | a < b < |index|
      ensures (atLeast(a) ==> atLeast(b)) && (beyond(a) ==> beyond(b))
    {
      OrderOfPrefixes(p, index[a], index[b]);
    }
    lo := FirstFrom(|index|, atLeast);
    hi := FirstFrom(|index|, beyond);
    ghost var first, last := lo, hi;
    forall k: nat | k < |index| ensures p <= index[k].tok <==> first <= k < last {
      assert (atLeast(k) <==> first <= k) && (beyond(k) <==> last <= k);
      PrefixIsNotLess(p, index[k].tok);
    }
    assert hi < |index| ==> beyond(hi) && atLeast(hi);
    assert lo <= hi;  // so this never fires
    if hi < lo { hi := lo; }
  }

  lemma PrefixIsNotLess(p: string, a: string)
    ensures p <= a ==> a == p || Less(p, a)
  {
    if p <= a { PrefixIsNotGreater(p, a); }
    LessIsTotal(p, a);
  }

  lemma OrderOfPrefixes(p: string, a: Ref, b: Ref)
    requires Before(a, b)
    ensures a.tok == p || Less(p, a.tok) ==> b.tok == p || Less(p, b.tok)
    ensures Less(p, a.tok) && !(p <= a.tok) ==> Less(p, b.tok) && !(p <= b.tok)
  {
    if Less(p, a.tok) && Less(a.tok, b.tok) {
      LessIsTransitive(p, a.tok, b.tok);
      if !(p <= a.tok) { PrefixesStandTogether(p, a.tok, b.tok); }
    }
  }

  // ------------------------------------------------------------------ the candidates

  /** How many of the first n words of the index start with t. */
  function Starting(index: seq<Ref>, t: string, n: nat): nat
    requires n <= |index|
  {
    if n == 0 then 0 else Starting(index, t, n - 1) + (if t <= index[n - 1].tok then 1 else 0)
  }

  function Rarity(index: seq<Ref>, t: string): nat { Starting(index, t, |index|) }

  lemma {:induction false} RangeIsRarity(index: seq<Ref>, t: string, lo: nat, hi: nat, n: nat)
    requires lo <= hi <= |index| && forall k :: 0 <= k < |index| ==> (t <= index[k].tok <==> lo <= k < hi)
    requires n <= |index|
    ensures Starting(index, t, n) == if n <= lo then 0 else if n <= hi then n - lo else hi - lo
  {
    if n > 0 { RangeIsRarity(index, t, lo, hi, n - 1); }
  }

  lemma RarityIs(index: seq<Ref>, t: string, lo: nat, hi: nat)
    requires lo <= hi <= |index| && forall k :: 0 <= k < |index| ==> (t <= index[k].tok <==> lo <= k < hi)
    ensures Rarity(index, t) == hi - lo
  {
    RangeIsRarity(index, t, lo, hi, |index|);
  }

  /** What was looked at is what is filed under a word that begins with the rarest of the query. */
  ghost predicate FromTheRarest(index: seq<Ref>, qtoks: seq<string>, seen: set<nat>) {
    exists tok :: tok in qtoks && (forall t :: t in qtoks ==> Rarity(index, tok) <= Rarity(index, t))
                  && forall id: nat :: id in seen ==> IsFiledUnder(index, tok, id)
  }

  ghost predicate IsFiledUnder(index: seq<Ref>, tok: string, id: nat) {
    exists k :: 0 <= k < |index| && index[k].id == id && tok <= index[k].tok
  }

  /** The narrowest range of the query's words; the first of equals. */
  method RarestRange(index: seq<Ref>, qtoks: seq<string>) returns (lo: nat, hi: nat, ghost tok: string)
    requires Sorted(index) && qtoks != []
    ensures tok in qtoks && lo <= hi <= |index|
    ensures forall k :: 0 <= k < |index| ==> (tok <= index[k].tok <==> lo <= k < hi)
    ensures forall t :: t in qtoks ==> Rarity(index, tok) <= Rarity(index, t)
  {
    hide Rarity;
    lo, hi := PrefixRange(index, qtoks[0]);
    tok := qtoks[0];
    RarityIs(index, tok, lo, hi);
    for i := 1 to |qtoks|
      invariant tok in qtoks && lo <= hi <= |index| && Rarity(index, tok) == hi - lo
      invariant forall k :: 0 <= k < |index| ==> (tok <= index[k].tok <==> lo <= k < hi)
      invariant forall j :: 0 <= j < i ==> Rarity(index, tok) <= Rarity(index, qtoks[j])
    {
      var l, h := PrefixRange(index, qtoks[i]);
      RarityIs(index, qtoks[i], l, h);
      if h - l < hi - lo { lo, hi, tok := l, h, qtoks[i]; }
    }
  }

  /** The token index loses nothing: whatever ranks 2, 3 or 4 stands in the range of any one word of the
      query. */
  lemma RangeHoldsTheRanked(entries: seq<Entry>, index: seq<Ref>, q: string, qt: string, id: nat)
    requires IsIndex(index, entries) && qt in Tokens(q)
    requires id < |entries| && MatchRank(entries[id], q, Tokens(q)) >= 2
    ensures exists k :: 0 <= k < |index| && index[k].id == id && qt <= index[k].tok
  {
    hide Tokens, Words, MatchRank, Sorted;
    RankedIsFiled(entries[id], q, qt);
    var t :| t in Words(entries[id]) && qt <= t;
    var r := Ref(t, id);
    RefsHold(entries, r);
    assert r in multiset(index);
    var k :| 0 <= k < |index| && index[k] == r;
  }

  lemma IdsAreEntries(entries: seq<Entry>, index: seq<Ref>, k: nat)
    requires IsIndex(index, entries) && k < |index|
    ensures index[k].id < |entries|
  {
    RefsHold(entries, index[k]);
    assert index[k] in multiset(index);
    assert index[k] in multiset(Refs(entries));
  }

  /** cand holds matching entries only, each once, and all that rank 2 and higher. */
  ghost predicate Fair(entries: seq<Entry>, q: string, cand: seq<nat>) {
    && (forall i, j :: 0 <= i < j < |cand| ==> cand[i] != cand[j])
    && (forall id :: id in cand ==> id < |entries| && MatchRank(entries[id], q, Tokens(q)) > 0)
    && forall id: nat :: id < |entries| && MatchRank(entries[id], q, Tokens(q)) >= 2 ==> id in cand
  }

  /** What was looked at, and what of it was kept: exactly what matches, each once. */
  ghost predicate Judged(entries: seq<Entry>, q: string, cand: seq<nat>, seen: set<nat>) {
    && (forall i, j :: 0 <= i < j < |cand| ==> cand[i] != cand[j])
    && (forall id :: id in cand ==> id in seen)
    && forall id :: id in seen ==> id < |entries| && (id in cand <==> MatchRank(entries[id], q, Tokens(q)) > 0)
  }

  lemma JudgeOne(entries: seq<Entry>, q: string, cand: seq<nat>, seen: set<nat>, id: nat)
    requires Judged(entries, q, cand, seen) && id < |entries| && id !in seen
    ensures Judged(entries, q, if MatchRank(entries[id], q, Tokens(q)) > 0 then cand + [id] else cand, seen + {id})
  {
    hide MatchRank, Tokens;
  }

  lemma FiledAt(index: seq<Ref>, tok: string, k: nat)
    requires k < |index| && tok <= index[k].tok
    ensures IsFiledUnder(index, tok, index[k].id)
  {
  }

  /** The candidate pass of a search: the entries of the rarest word's range that match at all. */
  method Candidates(entries: seq<Entry>, index: seq<Ref>, q: string) returns (cand: seq<nat>, seen: set<nat>)
    requires IsIndex(index, entries) && Tokens(q) != []
    ensures Fair(entries, q, cand) && Judged(entries, q, cand, seen) && FromTheRarest(index, Tokens(q), seen)
  {
    hide MatchRank, Sorted, Judged, Rarity, IsFiledUnder;
    var qtoks := Tokens(q);
    var lo, hi, tok := RarestRange(index, qtoks);
    cand, seen := [], {};
    assert Judged(entries, q, cand, seen) by { NothingJudged(entries, q); }
    for k := lo to hi
      invariant Judged(entries, q, cand, seen)
      invariant forall c :: lo <= c < k ==> index[c].id in seen
      invariant forall id: nat :: id in seen ==> IsFiledUnder(index, tok, id)
    {
      var id := index[k].id;
      IdsAreEntries(entries, index, k);
      assert IsFiledUnder(index, tok, id) by { FiledAt(index, tok, k); }
      if id !in seen {
        JudgeOne(entries, q, cand, seen, id);
        seen := seen + {id};
        if MatchRank(entries[id], q, qtoks) > 0 { cand := cand + [id]; }
      }
    }
    JudgedIsFair(entries, index, q, tok, lo, hi, cand, seen);
  }

  lemma NothingJudged(entries: seq<Entry>, q: string)
    ensures Judged(entries, q, [], {})
  {}

  lemma JudgedIsFair(entries: seq<Entry>, index: seq<Ref>, q: string, tok: string, lo: nat, hi: nat, cand: seq<nat>,
      seen: set<nat>)
    requires IsIndex(index, entries) && tok in Tokens(q) && hi <= |index| && Judged(entries, q, cand, seen)
    requires forall k :: 0 <= k < |index| ==> (tok <= index[k].tok <==> lo <= k < hi)
    requires forall c :: lo <= c < hi ==> index[c].id in seen
    ensures Fair(entries, q, cand)
  {
    hide MatchRank, IsIndex, Tokens;
    forall id: nat | id < |entries| && MatchRank(entries[id], q, Tokens(q)) >= 2 ensures id in cand {
      RangeHoldsTheRanked(entries, index, q, tok, id);
    }
  }

  lemma RankOneIsInside(e: Entry, q: string, qtoks: seq<string>)
    ensures Find(e.norm, q).Some? ==> MatchRank(e, q, qtoks) > 0
    ensures MatchRank(e, q, qtoks) == 1 ==> Find(e.norm, q).Some?
  {
    hide Find, Alts, Words;
  }

  /** And those that match at all, up to an entry. */
  ghost predicate Full(entries: seq<Entry>, q: string, cand: seq<nat>, upto: nat) {
    forall id: nat :: id < upto && id < |entries| && MatchRank(entries[id], q, Tokens(q)) > 0 ==> id in cand
  }

  /** The second pass: whatever holds the query anywhere in its name. */
  method Anywhere(entries: seq<Entry>, q: string, cand0: seq<nat>, seen: set<nat>) returns (cand: seq<nat>)
    requires Fair(entries, q, cand0) && Judged(entries, q, cand0, seen)
    ensures Fair(entries, q, cand) && Full(entries, q, cand, |entries|)
  {
    hide MatchRank, Tokens, Find;
    cand := cand0;
    for id: nat := 0 to |entries|
      invariant forall c :: c in cand0 ==> c in cand
      invariant forall c :: c in cand ==> c in seen || c < id
      invariant Fair(entries, q, cand) && Full(entries, q, cand, id)
    {
      RankOneIsInside(entries[id], q, Tokens(q));
      if id !in seen && Find(entries[id].norm, q).Some? {
        cand := cand + [id];
      }
    }
  }

  // ------------------------------------------------------------------ when nothing matches

  /** The order the words of a query are tried in: the rarest first, of those the longest, of those the first. */
  predicate Goes(words: seq<string>, sizes: seq<nat>, a: nat, b: nat)
    requires a < |words| == |sizes| && b < |words|
  {
    || sizes[a] < sizes[b]
    || (sizes[a] == sizes[b] && |words[a]| > |words[b]|)
    || (sizes[a] == sizes[b] && |words[a]| == |words[b]| && a <= b)
  }

  ghost predicate InLine(words: seq<string>, sizes: seq<nat>, line: seq<nat>) {
    && |words| == |sizes| && (forall i :: 0 <= i < |line| ==> line[i] < |words|)
    && forall i, j :: 0 <= i < j < |line| ==> Goes(words, sizes, line[i], line[j])
  }

  function Lined(words: seq<string>, sizes: seq<nat>, line: seq<nat>, a: nat): seq<nat>
    requires a < |words| == |sizes| && forall i :: 0 <= i < |line| ==> line[i] < |words|
  {
    if line == [] || Goes(words, sizes, a, line[0]) then [a] + line
    else [line[0]] + Lined(words, sizes, line[1..], a)
  }

  lemma {:induction false} LinedHolds(words: seq<string>, sizes: seq<nat>, line: seq<nat>, a: nat)
    requires a < |words| == |sizes| && forall i :: 0 <= i < |line| ==> line[i] < |words|
    ensures forall x :: x in Lined(words, sizes, line, a) <==> x == a || x in line
  {
    if line != [] && !Goes(words, sizes, a, line[0]) {
      LinedHolds(words, sizes, line[1..], a);
      assert line == [line[0]] + line[1..];
    }
  }

  lemma {:induction false} LinedIsInLine(words: seq<string>, sizes: seq<nat>, line: seq<nat>, a: nat)
    requires InLine(words, sizes, line) && a < |words|
    ensures InLine(words, sizes, Lined(words, sizes, line, a))
  {
    if line == [] || Goes(words, sizes, a, line[0]) {
    } else {
      LinedIsInLine(words, sizes, line[1..], a);
      LinedHolds(words, sizes, line[1..], a);
      var rest := Lined(words, sizes, line[1..], a);
      forall j | 0 <= j < |rest| ensures Goes(words, sizes, line[0], rest[j]) {
        assert rest[j] in rest;
        if rest[j] != a {
          var k :| 0 <= k < |line[1..]| && line[1..][k] == rest[j];
          assert line[k + 1] == rest[j];
        }
      }
    }
  }

  /** The words of a query in the order they are tried. */
  method ByRarity(index: seq<Ref>, words: seq<string>) returns (line: seq<nat>, ghost sizes: seq<nat>)
    requires Sorted(index)
    ensures InLine(words, sizes, line) && forall a: nat :: a in line <==> a < |words|
    ensures forall a :: 0 <= a < |words| ==> sizes[a] == Rarity(index, words[a])
  {
    hide Sorted, Starting, Goes;
    var counts: seq<nat> := [];
    for a := 0 to |words|
      invariant |counts| == a && forall b :: 0 <= b < a ==> counts[b] == Rarity(index, words[b])
    {
      var lo, hi := PrefixRange(index, words[a]);
      RangeIsRarity(index, words[a], lo, hi, |index|);
      counts := counts + [hi - lo];
    }
    sizes, line := counts, [];
    for a := 0 to |words|
      invariant InLine(words, counts, line) && forall b: nat :: b in line <==> b < a
    {
      LinedHolds(words, counts, line, a);
      LinedIsInLine(words, counts, line, a);
      line := Lined(words, counts, line, a);
    }
  }

  /** The entries whose name holds a word, in their order. */
  function Holding(entries: seq<Entry>, t: string, n: nat): (ids: seq<nat>)
    requires n <= |entries|
    ensures forall id: nat :: id in ids <==> id < n && Contains(entries[id].norm, t)
    ensures forall i, j :: 0 <= i < j < |ids| ==> ids[i] < ids[j]
  {
    if n == 0 then []
    else
      var front := Holding(entries, t, n - 1);
      assert forall i :: 0 <= i < |front| ==> front[i] in front;
      FindFinds(entries[n - 1].norm, t);
      if Find(entries[n - 1].norm, t).Some? then front + [n - 1] else front
  }

  /** Word a is long enough to be tried, and some entry holds it. */
  predicate Helps(entries: seq<Entry>, words: seq<string>, a: nat)
    requires a < |words|
  {
    |words[a]| >= 3 && Holding(entries, words[a], |entries|) != []
  }

  ghost predicate Rarities(index: seq<Ref>, words: seq<string>, sizes: seq<nat>) {
    |sizes| == |words| && forall a :: 0 <= a < |words| ==> sizes[a] == Rarity(index, words[a])
  }

  /** What is offered when nothing matches: the entries that hold the rarest of the words that help. */
  ghost predicate Offers(entries: seq<Entry>, index: seq<Ref>, words: seq<string>, cand: seq<nat>) {
    if forall a :: 0 <= a < |words| ==> !Helps(entries, words, a) then cand == []
    else
      exists a: nat, sizes ::
        IsChosen(entries, index, words, sizes, a) && cand == Holding(entries, words[a], |entries|)
  }

  ghost predicate IsChosen(entries: seq<Entry>, index: seq<Ref>, words: seq<string>, sizes: seq<nat>, a: nat) {
    && Rarities(index, words, sizes) && a < |words| && Helps(entries, words, a)
    && forall b :: 0 <= b < |words| && Helps(entries, words, b) ==>
         || sizes[a] < sizes[b]
         || (sizes[a] == sizes[b] && |words[a]| > |words[b]|)
         || (sizes[a] == sizes[b] && |words[a]| == |words[b]| && a <= b)
  }

  /** The last pass. */
  method LastPass(entries: seq<Entry>, index: seq<Ref>, words: seq<string>) returns (cand: seq<nat>)
    requires Sorted(index)
    ensures Offers(entries, index, words, cand)
  {
    hide Sorted, Goes, Rarity, Holding;
    var line;
    ghost var sizes;
    line, sizes := ByRarity(index, words);
    cand := [];
    for k := 0 to |line|
      invariant cand == [] && forall j :: 0 <= j < k ==> !Helps(entries, words, line[j])
    {
      var t := words[line[k]];
      if |t| >= 3 {
        cand := Scan(entries, t);
        if cand != [] {
          TheFirstThatHelps(entries, index, words, sizes, line, k);
          return;
        }
      }
    }
    forall a: nat | a < |words| ensures !Helps(entries, words, a) { assert a in line; }
  }

  method Scan(entries: seq<Entry>, t: string) returns (ids: seq<nat>)
    ensures ids == Holding(entries, t, |entries|)
  {
    ids := [];
    for id: nat := 0 to |entries|
      invariant ids == Holding(entries, t, id)
    {
      if Find(entries[id].norm, t).Some? { ids := ids + [id]; }
    }
  }

  lemma TheFirstThatHelps(entries: seq<Entry>, index: seq<Ref>, words: seq<string>, sizes: seq<nat>, line: seq<nat>,
      k: nat)
    requires InLine(words, sizes, line) && Rarities(index, words, sizes) && forall a: nat :: a in line <==> a < |words|
    requires k < |line| && Helps(entries, words, line[k]) && forall j :: 0 <= j < k ==> !Helps(entries, words, line[j])
    ensures IsChosen(entries, index, words, sizes, line[k])
  {
    hide Helps, Rarity;
    forall b: nat | b < |words| && Helps(entries, words, b) ensures Goes(words, sizes, line[k], b) {
      assert b in line;
      var j :| 0 <= j < |line| && line[j] == b;
    }
  }

  lemma FewerAreFrom(entries: seq<Entry>, index: seq<Ref>, q: string, cand: seq<nat>, seen: set<nat>)
    requires Judged(entries, q, cand, seen) && FromTheRarest(index, Tokens(q), seen)
    ensures FromTheRarest(index, Tokens(q), set id | id in cand)
  {
    hide MatchRank, Rarity, Tokens;
  }

  /** Some entry matches the query in some way. */
  ghost predicate SomeMatch(entries: seq<Entry>, q: string) {
    exists id :: 0 <= id < |entries| && MatchRank(entries[id], q, Tokens(q)) > 0
  }

  /** The passes of a search, up to the ranking: the candidates; when they are fewer than asked for, whatever holds
      the query anywhere in its name; and when nothing matches, what the rarest word of the query finds. */
  method Search(entries: seq<Entry>, index: seq<Ref>, query: string, limit: nat)
      returns (cand: seq<nat>, ghost first: seq<nat>)
    requires IsIndex(index, entries)
    ensures Tokens(Trim(query)) == [] ==> cand == []
    ensures Tokens(Trim(query)) != [] && SomeMatch(entries, Trim(query)) ==>
              && cand != [] && Fair(entries, Trim(query), cand) && Fair(entries, Trim(query), first)
              && (|first| >= (if limit == 0 then 10 else limit) ==> cand == first)
              && FromTheRarest(index, Tokens(Trim(query)), set id | id in first)
              && (|cand| < (if limit == 0 then 10 else limit) ==> Full(entries, Trim(query), cand, |entries|))
    ensures Tokens(Trim(query)) != [] && !SomeMatch(entries, Trim(query)) ==>
              Offers(entries, index, Tokens(Trim(query)), cand)
  {
    hide MatchRank, Trim, Offers, Sorted, FromTheRarest;
    var q := Trim(query);
    var asked := if limit == 0 then 10 else limit;
    cand, first := [], [];
    if q == "" { return; }
    var qtoks := Tokens(q);
    if qtoks == [] { return; }
    var seen;
    cand, seen := Candidates(entries, index, q);
    first := cand;
    FewerAreFrom(entries, index, q, cand, seen);
    if |cand| < asked { cand := Anywhere(entries, q, cand, seen); }
    assert cand != [] ==> cand[0] in cand;
    assert cand == [] <==> !SomeMatch(entries, q);
    if cand == [] { cand := LastPass(entries, index, qtoks); }
  }
}
