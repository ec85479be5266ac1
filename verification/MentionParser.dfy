/** Extraction of @names from comment text: the scanner, its meaning, and its laws. */
module MentionParser {

  /** The class [a-zA-Z0-9_]. */
  predicate IsWord(c: char) {
    'a' <= c <= 'z' || 'A' <= c <= 'Z' || '0' <= c <= '9' || c == '_'
  }

  function LowerChar(c: char): char {
    if 'A' <= c <= 'Z' then (c as int + 32) as char else c
  }

  /** Lower-casing of ASCII letters. */
  function Lower(s: string): (r: string)
    ensures |r| == |s| && forall i :: 0 <= i < |s| ==> r[i] == LowerChar(s[i])
  {
    seq(|s|, i requires 0 <= i < |s| => LowerChar(s[i]))
  }

  // ----- meaning -----

  /** s[i..j] is a maximal run of word characters right after an '@'. */
  ghost predicate IsMention(s: string, i: int, j: int) {
    && 0 < i < j <= |s| && s[i - 1] == '@'
    && (forall k :: i <= k < j ==> IsWord(s[k]))
    && (j < |s| ==> !IsWord(s[j]))
  }

  predicate MentionAt(s: string, i: int) {
    0 < i < |s| && s[i - 1] == '@' && IsWord(s[i])
  }

  function RunEnd(s: string, i: nat): (j: nat)
    requires i <= |s|
    ensures i <= j <= |s|
    ensures forall k :: i <= k < j ==> IsWord(s[k])
    ensures j < |s| ==> !IsWord(s[j])
    decreases |s| - i
  {
    if i == |s| || !IsWord(s[i]) then i else RunEnd(s, i + 1)
  }

  function Name(s: string, i: nat): string
    requires i <= |s|
  {
    Lower(s[i..RunEnd(s, i)])
  }

  /** The names whose first character is at an index below n, left to right. */
  function Names(s: string, n: nat): seq<string> {
    if n == 0 then []
    else Names(s, n - 1) + if MentionAt(s, n - 1) then [Name(s, n - 1)] else []
  }

  /** Insertion order of a JavaScript Set filled from left to right. */
  function FirstSeen(xs: seq<string>): seq<string> {
    if xs == [] then []
    else
      var seen, x := FirstSeen(xs[..|xs| - 1]), xs[|xs| - 1];
      if x in seen then seen else seen + [x]
  }

  function ParseMentions(s: string): seq<string> {
    FirstSeen(Names(s, |s|))
  }

  // ----- the scanner -----

  /** re.exec from lastIndex: the leftmost match of @([a-zA-Z0-9_]+) at or after it, greedy. */
  method Exec(s: string, lastIndex: nat) returns (found: bool, start: nat, end: nat)
    requires lastIndex <= |s|
    ensures IsMatch(s, lastIndex, found, start, end)
  {
    found, start, end := false, 0, 0;
    var at := lastIndex;
    while at + 1 < |s|
      invariant lastIndex <= at
      invariant forall k :: lastIndex < k <= at ==> !MentionAt(s, k)
    {
      if s[at] == '@' && IsWord(s[at + 1]) {
        found, start, end := true, at + 1, at + 1;
        while end < |s| && IsWord(s[end])
          invariant start <= end <= |s|
          invariant RunEnd(s, start) == RunEnd(s, end)
        {
          end := end + 1;
        }
        return;
      }
      at := at + 1;
    }
  }

  /** What re.exec reports: the leftmost mention starting beyond lastIndex, or that there is none. */
  ghost predicate IsMatch(s: string, lastIndex: nat, found: bool, start: nat, end: nat) {
    if found then
      lastIndex < start && MentionAt(s, start) && end == RunEnd(s, start)
      && forall k :: lastIndex < k < start ==> !MentionAt(s, k)
    else forall k :: lastIndex < k ==> !MentionAt(s, k)
  }

  method Parse(content: string) returns (names: seq<string>)
    ensures names == ParseMentions(content)
  {
    names := [];
    if content == "" { return; }
    var lastIndex: nat := 0;
    var found, start, end := Exec(content, lastIndex);
    while found
      invariant lastIndex <= |content|
      invariant names == FirstSeen(Names(content, lastIndex + 1))
      invariant IsMatch(content, lastIndex, found, start, end)
      decreases if found then |content| - lastIndex + 1 else 0
    {
      var name := Lower(content[start..end]);
      NextMention(content, lastIndex, start, end);
      if name !in names {
        names := names + [name];
      }
      lastIndex := end;
      found, start, end := Exec(content, lastIndex);
    }
    LastMention(content, lastIndex, start, end);
  }

  lemma {:induction false} NamesGap(s: string, a: nat, b: nat)
    requires a <= b && forall k :: a <= k < b ==> !MentionAt(s, k)
    ensures Names(s, b) == Names(s, a)
  {
    if a < b {
      NamesGap(s, a, b - 1);
    }
  }

  /** A match extends the names by one. */
  lemma NextMention(s: string, lastIndex: nat, start: nat, end: nat)
    requires IsMatch(s, lastIndex, true, start, end)
    ensures lastIndex < start < end <= |s|
    ensures var seen, name := FirstSeen(Names(s, lastIndex + 1)), Lower(s[start..end]);
            FirstSeen(Names(s, end + 1)) == if name in seen then seen else seen + [name]
  {
    NamesGap(s, lastIndex + 1, start);
    NamesGap(s, start + 1, end + 1);
    var names := Names(s, start + 1);
    assert names[..|names| - 1] == Names(s, start);
  }

  /** When nothing more matches, all names have been seen. */
  lemma LastMention(s: string, lastIndex: nat, start: nat, end: nat)
    requires lastIndex <= |s| && IsMatch(s, lastIndex, false, start, end)
    ensures Names(s, lastIndex + 1) == Names(s, |s|)
  {
    if lastIndex + 1 <= |s| {
      NamesGap(s, lastIndex + 1, |s|);
    } else {
      NamesGap(s, |s|, lastIndex + 1);
    }
  }

  // ----- the characters -----

  const SMALL_LETTERS := "abcdefghijklmnopqrstuvwxyz"
  const CAPITALS := "ABCDEFGHIJKLMNOPQRSTUVWXYZ"
  const DIGITS := "0123456789"

  lemma LettersAt(k: nat)
    requires k < 26
    ensures SMALL_LETTERS[k] as int == 'a' as int + k && CAPITALS[k] as int == 'A' as int + k
  {
  }

  lemma SmallLetters(c: char)
    ensures c in SMALL_LETTERS <==> 'a' <= c <= 'z'
  {
    if 'a' <= c <= 'z' {
      LettersAt(c as int - 'a' as int);
      assert SMALL_LETTERS[c as int - 'a' as int] == c;
    }
  }

  lemma Capitals(c: char)
    ensures c in CAPITALS <==> 'A' <= c <= 'Z'
  {
    if 'A' <= c <= 'Z' {
      LettersAt(c as int - 'A' as int);
      assert CAPITALS[c as int - 'A' as int] == c;
    }
  }

  lemma Digits(c: char)
    ensures c in DIGITS <==> '0' <= c <= '9'
  {
    if '0' <= c <= '9' {
      assert DIGITS[c as int - '0' as int] == c;
    }
  }

  /** Names are made of letters, digits and underscores. */
  lemma WordCharacters(c: char)
    ensures IsWord(c) <==> c in SMALL_LETTERS || c in CAPITALS || c in DIGITS || c == '_'
  {
    SmallLetters(c);
    Capitals(c);
    Digits(c);
  }

  /** The same character, or one letter in both cases. */
  ghost predicate SameLetter(c: char, d: char) {
    c == d || exists k :: 0 <= k < 26 && c in CapitalAndSmall(k) && d in CapitalAndSmall(k)
  }

  function CapitalAndSmall(k: nat): set<char>
    requires k < 26
  {
    {SMALL_LETTERS[k], CAPITALS[k]}
  }

  lemma LowerOfSame(c: char, d: char)
    requires SameLetter(c, d)
    ensures LowerChar(c) == LowerChar(d)
  {
    if c != d {
      var k :| 0 <= k < 26 && c in CapitalAndSmall(k) && d in CapitalAndSmall(k);
      LettersAt(k);
    }
  }

  lemma SameOfLower(c: char, d: char)
    requires LowerChar(c) == LowerChar(d)
    ensures SameLetter(c, d)
  {
    if c != d {
      var k := LowerChar(c) as int - 'a' as int;
      LettersAt(k);
      assert c in CapitalAndSmall(k) && d in CapitalAndSmall(k);
    }
  }

  /** Lower-casing identifies exactly the two cases of a letter, and yields the small one. */
  lemma LowerLetters(c: char, d: char)
    ensures LowerChar(c) == LowerChar(d) <==> SameLetter(c, d)
    ensures SameLetter(c, LowerChar(c)) && LowerChar(c) !in CAPITALS
  {
    Capitals(LowerChar(c));
    SameOfLower(c, LowerChar(c));
    if SameLetter(c, d) {
      LowerOfSame(c, d);
    } else if LowerChar(c) == LowerChar(d) {
      SameOfLower(c, d);
    }
  }

  // ----- laws -----

  lemma {:induction false} FirstSeenSet(xs: seq<string>)
    ensures forall x :: x in FirstSeen(xs) <==> x in xs
    ensures forall a, b :: 0 <= a < b < |FirstSeen(xs)| ==> FirstSeen(xs)[a] != FirstSeen(xs)[b]
  {
    if xs != [] {
      var shorter := xs[..|xs| - 1];
      FirstSeenSet(shorter);
      assert xs == shorter + [xs[|xs| - 1]];
    }
  }

  lemma {:induction false} FirstSeenDistinct(xs: seq<string>)
    requires forall a, b :: 0 <= a < b < |xs| ==> xs[a] != xs[b]
    ensures FirstSeen(xs) == xs
  {
    if xs != [] {
      var shorter := xs[..|xs| - 1];
      FirstSeenDistinct(shorter);
      assert xs == shorter + [xs[|xs| - 1]];
    }
  }

  lemma {:induction false} NamesAre(s: string, n: nat)
    ensures forall x :: x in Names(s, n) <==> exists i: nat :: i < n && MentionAt(s, i) && Name(s, i) == x
  {
    if n > 0 {
      NamesAre(s, n - 1);
    }
  }

  lemma MentionRun(s: string, i: int, j: int)
    ensures IsMention(s, i, j) <==> MentionAt(s, i) && j == RunEnd(s, i)
  {
  }

  /** Exactly the lower-cased maximal word runs right after an '@', each once. */
  lemma ParsedExactly(s: string)
    ensures forall x :: x in ParseMentions(s) <==> exists i, j :: IsMention(s, i, j) && x == Lower(s[i..j])
    ensures forall a, b :: 0 <= a < b < |ParseMentions(s)| ==> ParseMentions(s)[a] != ParseMentions(s)[b]
  {
    FirstSeenSet(Names(s, |s|));
    NamesAre(s, |s|);
    forall x | x in ParseMentions(s)
      ensures exists i, j :: IsMention(s, i, j) && x == Lower(s[i..j])
    {
      var i: nat :| i < |s| && MentionAt(s, i) && Name(s, i) == x;
      MentionRun(s, i, RunEnd(s, i));
    }
    forall i, j | IsMention(s, i, j)
      ensures Lower(s[i..j]) in ParseMentions(s)
    {
      MentionRun(s, i, j);
      assert Name(s, i) == Lower(s[i..j]);
    }
  }

  // ----- the same in characters -----

  ghost predicate WordCharacter(c: char) {
    c in SMALL_LETTERS || c in CAPITALS || c in DIGITS || c == '_'
  }

  /** text[i..j] is all of the letters, digits and underscores after an '@', and there is at least one. */
  ghost predicate FollowsAt(text: string, i: int, j: int) {
    && 0 < i < j <= |text| && text[i - 1] == '@'
    && (forall k :: i <= k < j ==> WordCharacter(text[k]))
    && (j == |text| || !WordCharacter(text[j]))
  }

  /** The names are equal up to the case of letters. */
  ghost predicate SameName(a: string, b: string) {
    |a| == |b| && forall k :: 0 <= k < |a| ==> SameLetter(a[k], b[k])
  }

  /** The text mentions the name. */
  ghost predicate Mentions(text: string, name: string) {
    exists i, j :: FollowsAt(text, i, j) && SameName(text[i..j], name)
  }

  lemma FollowsAtIsMention(text: string, i: int, j: int)
    ensures FollowsAt(text, i, j) <==> IsMention(text, i, j)
  {
    forall k | 0 <= k < |text|
      ensures WordCharacter(text[k]) <==> IsWord(text[k])
    {
      WordCharacters(text[k]);
    }
  }

  lemma SameNameIsLower(a: string, b: string)
    ensures SameName(a, b) <==> Lower(a) == Lower(b)
  {
    if |a| == |b| {
      forall k | 0 <= k < |a|
        ensures SameLetter(a[k], b[k]) <==> Lower(a)[k] == Lower(b)[k]
      {
        LowerLetters(a[k], b[k]);
      }
    } else {
      assert |Lower(a)| != |Lower(b)|;
    }
  }

  /** A name is among the parsed ones, in lower case, exactly when the text mentions it. */
  lemma ParsedWhenMentioned(text: string, name: string)
    ensures Lower(name) in ParseMentions(text) <==> Mentions(text, name)
  {
    ParsedExactly(text);
    if Lower(name) in ParseMentions(text) {
      var i, j :| IsMention(text, i, j) && Lower(name) == Lower(text[i..j]);
      FollowsAtIsMention(text, i, j);
      SameNameIsLower(text[i..j], name);
    } else if i, j :| FollowsAt(text, i, j) && SameName(text[i..j], name) {
      FollowsAtIsMention(text, i, j);
      SameNameIsLower(text[i..j], name);
    }
  }

  /** Name x occurs before any occurrence of y. */
  ghost predicate SeenBefore(s: string, n: nat, x: string, y: string) {
    exists i: nat :: i < n && MentionAt(s, i) && Name(s, i) == x
      && forall k: nat :: k < n && MentionAt(s, k) && Name(s, k) == y ==> i < k
  }

  lemma SeenBeforeGrows(s: string, n: nat, x: string, y: string)
    requires n > 0 && SeenBefore(s, n - 1, x, y)
    ensures SeenBefore(s, n, x, y)
  {
    var i: nat :| i < n - 1 && MentionAt(s, i) && Name(s, i) == x
      && forall k: nat :: k < n - 1 && MentionAt(s, k) && Name(s, k) == y ==> i < k;
  }

  lemma SeenBeforeNew(s: string, n: nat, x: string, y: string)
    requires n > 0 && x in Names(s, n - 1) && y !in Names(s, n - 1)
    ensures SeenBefore(s, n, x, y)
  {
    NamesAre(s, n - 1);
    var i: nat :| i < n - 1 && MentionAt(s, i) && Name(s, i) == x;
    assert forall k: nat :: k < n && MentionAt(s, k) && Name(s, k) == y ==> i < k;
  }

  ghost predicate InOrder(s: string, n: nat, r: seq<string>) {
    forall a, b :: 0 <= a < b < |r| ==> SeenBefore(s, n, r[a], r[b])
  }

  lemma {:induction false} OrderOfFirstSeen(s: string, n: nat)
    ensures InOrder(s, n, FirstSeen(Names(s, n)))
  {
    if n > 0 {
      OrderOfFirstSeen(s, n - 1);
      var names, earlier, all := Names(s, n - 1), FirstSeen(Names(s, n - 1)), FirstSeen(Names(s, n));
      FirstSeenSet(names);
      if MentionAt(s, n - 1) {
        assert Names(s, n)[..|Names(s, n)| - 1] == names;
      } else {
        assert Names(s, n) == names;
      }
      forall a, b | 0 <= a < b < |all|
        ensures SeenBefore(s, n, all[a], all[b])
      {
        if b < |earlier| {
          SeenBeforeGrows(s, n, earlier[a], earlier[b]);
        } else {
          assert all[a] in earlier;
          SeenBeforeNew(s, n, all[a], all[b]);
        }
      }
    }
  }

  /** The result lists names in the order of their first occurrences. */
  lemma ParsedInOrder(s: string)
    ensures InOrder(s, |s|, ParseMentions(s))
  {
    OrderOfFirstSeen(s, |s|);
  }

  /** Changing the case of ASCII letters. */
  predicate SameLetters(s: string, t: string) {
    |s| == |t| && forall i :: 0 <= i < |s| ==> LowerChar(s[i]) == LowerChar(t[i])
  }

  lemma LowerCharClass(c: char, d: char)
    requires LowerChar(c) == LowerChar(d)
    ensures IsWord(c) == IsWord(d) && (c == '@') == (d == '@')
  {
  }

  lemma {:induction false} RunEndSameLetters(s: string, t: string, i: nat)
    requires SameLetters(s, t) && i <= |s|
    ensures RunEnd(s, i) == RunEnd(t, i)
    decreases |s| - i
  {
    if i < |s| {
      LowerCharClass(s[i], t[i]);
      RunEndSameLetters(s, t, i + 1);
    }
  }

  lemma {:induction false} NamesSameLetters(s: string, t: string, n: nat)
    requires SameLetters(s, t)
    ensures Names(s, n) == Names(t, n)
  {
    if n > 0 {
      NamesSameLetters(s, t, n - 1);
      var i := n - 1;
      if 0 < i < |s| {
        LowerCharClass(s[i - 1], t[i - 1]);
        LowerCharClass(s[i], t[i]);
        RunEndSameLetters(s, t, i);
        assert Name(s, i) == Name(t, i);
      }
    }
  }

  /** Mentions are case-insensitive. */
  lemma CaseInsensitive(s: string, t: string)
    requires SameLetters(s, t)
    ensures ParseMentions(s) == ParseMentions(t)
  {
    NamesSameLetters(s, t, |s|);
  }

  /** A registrable name in lower case. */
  ghost predicate LowerName(u: string) {
    u != "" && Lower(u) == u && forall i :: 0 <= i < |u| ==> IsWord(u[i])
  }

  /** "@u1 @u2 ... @un" */
  function Mentioning(us: seq<string>): string {
    if us == [] then ""
    else
      var last := |us| - 1;
      Mentioning(us[..last]) + (if last == 0 then "@" else " @") + us[last]
  }

  lemma {:induction false} RunEndPrefix(s: string, t: string, i: nat)
    requires i <= |s| && (t == "" || !IsWord(t[0]))
    ensures RunEnd(s + t, i) == RunEnd(s, i)
    decreases |s| - i
  {
    if i < |s| {
      RunEndPrefix(s, t, i + 1);
    }
  }

  lemma {:induction false} NamesPrefix(s: string, t: string, n: nat)
    requires n <= |s| && (t == "" || !IsWord(t[0]))
    ensures Names(s + t, n) == Names(s, n)
  {
    if n > 0 {
      NamesPrefix(s, t, n - 1);
      RunEndPrefix(s, t, n - 1);
      assert (s + t)[n - 1..RunEnd(s, n - 1)] == s[n - 1..RunEnd(s, n - 1)];
    }
  }

  lemma NamesTail(all: string, a: nat, at: nat, u: string)
    requires LowerName(u) && a < at < |all| && all[at..] == u
    requires all[at - 1] == '@' && forall k :: a <= k < at ==> !IsWord(all[k])
    ensures Names(all, |all|) == Names(all, a) + [u]
  {
    assert forall k :: at <= k < |all| ==> all[k] == u[k - at];
    NamesGap(all, a, at);
    NamesGap(all, at + 1, |all|);
    assert RunEnd(all, at) == |all|;
    assert all[at..|all|] == u;
    assert MentionAt(all, at) && Name(all, at) == u;
  }

  /** One more mention at the end adds its name. */
  lemma NamesSnoc(s: string, sep: string, u: string)
    requires LowerName(u) && (sep == "@" || sep == " @")
    ensures Names(s + sep + u, |s + sep + u|) == Names(s, |s|) + [u]
  {
    var all, at := s + sep + u, |s| + |sep|;
    assert all == s + (sep + u);
    NamesPrefix(s, sep + u, |s|);
    NamesTail(all, |s|, at, u);
  }

  lemma {:induction false} NamesOfMentioning(us: seq<string>)
    requires forall i :: 0 <= i < |us| ==> LowerName(us[i])
    ensures Names(Mentioning(us), |Mentioning(us)|) == us
  {
    if us != [] {
      var last := |us| - 1;
      NamesOfMentioning(us[..last]);
      NamesSnoc(Mentioning(us[..last]), if last == 0 then "@" else " @", us[last]);
      assert us == us[..last] + [us[last]];
    }
  }

  /** Parsing "@u1 @u2 ... @un" gives back the distinct lower-case names. */
  lemma MentionRoundTrip(us: seq<string>)
    requires forall i :: 0 <= i < |us| ==> LowerName(us[i])
    requires forall a, b :: 0 <= a < b < |us| ==> us[a] != us[b]
    ensures ParseMentions(Mentioning(us)) == us
  {
    NamesOfMentioning(us);
    FirstSeenDistinct(us);
  }
}
