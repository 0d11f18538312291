/** The pattern matcher and the line loop of user/grep.c.

    A C string is the sequence of its characters before the terminating NUL; advancing a
    pointer is dropping the first character. */
module Grep {
  type str = seq<char>

  const NUL: char := '\0'

  // ----- what patterns mean -----

  /** A pattern is a sequence of characters and starred characters, possibly anchored at
      the end. */
  datatype Item = One(c: char) | Star(c: char)

  predicate Fits(c: char, x: char) {
    c == '.' || c == x
  }

  function Items(re: str): seq<Item> {
    if re == [] then []
    else if |re| >= 2 && re[1] == '*' then [Star(re[0])] + Items(re[2..])
    else if re == ['$'] then []
    else [One(re[0])] + Items(re[1..])
  }

  /** The pattern ends in a `$` that no star follows. */
  predicate AtEnd(re: str) {
    if re == [] then false
    else if |re| >= 2 && re[1] == '*' then AtEnd(re[2..])
    else re == ['$'] || AtEnd(re[1..])
  }

  predicate ItemMatches(item: Item, w: str) {
    match item
    case One(c) => |w| == 1 && Fits(c, w[0])
    case Star(c) => forall i {:trigger w[i]} :: 0 <= i < |w| ==> Fits(c, w[i])
  }

  /** The string w is in the language of these items: it splits into one part for each. */
  ghost predicate InLanguage(items: seq<Item>, w: str)
    decreases |items|, 1
  {
    if items == [] then w == []
    else exists k :: Splits(items, w, k)
  }

  ghost predicate Splits(items: seq<Item>, w: str, k: int)
    requires items != []
    decreases |items|, 0
  {
    0 <= k <= |w| && ItemMatches(items[0], w[..k]) && InLanguage(items[1..], w[k..])
  }

  lemma SplitAt(items: seq<Item>, w: str) returns (k: int)
    requires items != [] && InLanguage(items, w)
    ensures Splits(items, w, k)
  {
    k :| Splits(items, w, k);
  }

  ghost predicate PrefixMatches(re: str, text: str, k: int) {
    0 <= k <= |text| && InLanguage(Items(re), text[..k]) && (AtEnd(re) ==> k == |text|)
  }

  /** Some prefix of the text is in the language; all of it if the pattern is anchored at
      the end. */
  ghost predicate MatchesHere(re: str, text: str) {
    exists k :: PrefixMatches(re, text, k)
  }

  ghost predicate MatchesFrom(re: str, text: str, s: int) {
    0 <= s <= |text| && MatchesHere(re, text[s..])
  }

  /** Some substring of the text is in the language, at its start after `^` and up to its
      end before `$`. */
  ghost predicate Matches(re: str, text: str) {
    if re != [] && re[0] == '^' then MatchesHere(re[1..], text)
    else exists s :: MatchesFrom(re, text, s)
  }

  // ----- how the matcher takes them apart -----

  /** A character first: the text starts with it and the rest matches there. */
  lemma OneFirst(re: str, text: str)
    requires re != [] && !(|re| >= 2 && re[1] == '*') && re != ['$']
    ensures MatchesHere(re, text) <==> text != [] && Fits(re[0], text[0]) && MatchesHere(re[1..], text[1..])
  {
    var items := Items(re);
    assert items == [One(re[0])] + Items(re[1..]) && items[1..] == Items(re[1..]);
    if MatchesHere(re, text) {
      var k :| PrefixMatches(re, text, k);
      var w := text[..k];
      assert InLanguage(items, w);
      var j := SplitAt(items, w);
      assert j == 1 && w[..j][0] == text[0] && w[1..] == text[1..][..k - 1];
      assert PrefixMatches(re[1..], text[1..], k - 1);
    }
    if text != [] && Fits(re[0], text[0]) && MatchesHere(re[1..], text[1..]) {
      var k :| PrefixMatches(re[1..], text[1..], k);
      var w := text[..k + 1];
      assert w[..1] == [text[0]] && w[1..] == text[1..][..k];
      assert Splits(items, w, 1);
      assert PrefixMatches(re, text, k + 1);
    }
  }

  /** The first j characters of the text all fit c. */
  predicate AllFit(c: char, text: str, j: int) {
    0 <= j <= |text| && forall i {:trigger text[i]} :: 0 <= i < j ==> Fits(c, text[i])
  }

  ghost predicate StarThen(c: char, re: str, text: str, j: int) {
    AllFit(c, text, j) && MatchesHere(re, text[j..])
  }

  /** A starred character first: the rest matches after some run of it. */
  lemma StarFirst(re: str, text: str)
    requires |re| >= 2 && re[1] == '*'
    ensures MatchesHere(re, text) <==> exists j :: StarThen(re[0], re[2..], text, j)
  {
    var items := Items(re);
    assert items[0] == Star(re[0]) && items[1..] == Items(re[2..]);
    if MatchesHere(re, text) {
      var k :| PrefixMatches(re, text, k);
      var w := text[..k];
      assert InLanguage(items, w);
      var j := SplitAt(items, w);
      assert forall i :: 0 <= i < j ==> w[..j][i] == text[i];
      assert w[j..] == text[j..][..k - j];
      assert PrefixMatches(re[2..], text[j..], k - j);
      assert StarThen(re[0], re[2..], text, j);
    }
    if exists j :: StarThen(re[0], re[2..], text, j) {
      var j :| StarThen(re[0], re[2..], text, j);
      var k :| PrefixMatches(re[2..], text[j..], k);
      var w := text[..j + k];
      assert w[..j] == text[..j] && w[j..] == text[j..][..k];
      assert Splits(items, w, j);
      assert PrefixMatches(re, text, j + k);
    }
  }

  lemma NothingFirst(re: str, text: str)
    requires re == [] || re == ['$']
    ensures MatchesHere(re, text) <==> re == [] || text == []
  {
    assert text[..0] == [];
    if re == [] || text == [] {
      assert PrefixMatches(re, text, 0);
    }
    if MatchesHere(re, text) {
      var k :| PrefixMatches(re, text, k);
      assert |text[..k]| == k;
    }
  }

  // ----- the matcher -----

  /** matchhere(): the pattern at the beginning of the text. */
  method MatchHere(re: str, text: str) returns (found: bool)
    ensures found <==> MatchesHere(re, text)
    decreases |re|, 0
  {
    if re == [] {
      NothingFirst(re, text);
      return true;
    }
    if |re| >= 2 && re[1] == '*' {
      StarFirst(re, text);
      found := MatchStar(re[0], re[2..], text);
      return;
    }
    if re[0] == '$' && |re| == 1 {
      assert re == ['$'];
      NothingFirst(re, text);
      return text == [];
    }
    OneFirst(re, text);
    if text != [] && (re[0] == '.' || re[0] == text[0]) {
      found := MatchHere(re[1..], text[1..]);
      return;
    }
    return false;
  }

  /** match(): 1 exactly when some substring of the text is in the pattern's language. */
  method Match(re: str, text: str) returns (found: bool)
    ensures found <==> Matches(re, text)
  {
    if re != [] && re[0] == '^' {
      found := MatchHere(re[1..], text);
      return;
    }
    var t := text;
    ghost var s := 0;
    while true
      invariant 0 <= s <= |text| && t == text[s..]
      invariant forall r :: 0 <= r < s ==> !MatchesFrom(re, text, r)
      decreases |t|
    {
      found := MatchHere(re, t);
      if found {
        assert MatchesFrom(re, text, s);
        return;
      }
      assert !MatchesFrom(re, text, s);
      if t == [] {
        return;
      }
      t := t[1..];
      s := s + 1;
    }
  }

  /** matchstar(): c* and then the pattern at the beginning of the text. */
  method MatchStar(c: char, re: str, text: str) returns (found: bool)
    ensures found <==> exists j :: StarThen(c, re, text, j)
    decreases |re|, 1
  {
    var t := text;
    ghost var j := 0;
    while true
      invariant AllFit(c, text, j) && t == text[j..]
      invariant forall i {:trigger StarThen(c, re, text, i)} :: 0 <= i < j ==> !StarThen(c, re, text, i)
      decreases |t|
    {
      found := MatchHere(re, t);
      if found {
        assert StarThen(c, re, text, j);
        return;
      }
      if !(t != [] && (t[0] == c || c == '.')) {
        forall i ensures !StarThen(c, re, text, i) {
          assert i > j && j < |text| ==> t[0] == text[j];
        }
        return;
      }
      assert t[0] == text[j];
      t := t[1..];
      j := j + 1;
    }
  }

  // ----- the line loop -----

  /** Position of the first newline, or the length. */
  function LineEnd(s: str): (i: nat)
    ensures i <= |s| && (forall j :: 0 <= j < i ==> s[j] != '\n') && (i < |s| ==> s[i] == '\n')
  {
    if s == [] || s[0] == '\n' then 0 else 1 + LineEnd(s[1..])
  }

  const BUFSIZE := 1024

  /** What grep writes for an input: its matching lines up to the first that is longer than
      1022 characters, each with its newline; an unfinished last line is no line. */
  ghost function Output(re: str, input: str): str {
    var i := LineEnd(input);
    if i >= |input| || i > BUFSIZE - 2 then []
    else (if Matches(re, input[..i]) then input[..i + 1] else []) + Output(re, input[i + 1..])
  }

  /** All matching lines. */
  ghost function MatchingLines(re: str, input: str): str {
    var i := LineEnd(input);
    if i >= |input| then []
    else (if Matches(re, input[..i]) then input[..i + 1] else []) + MatchingLines(re, input[i + 1..])
  }

  /** The input from its first line of more than 1022 characters on, where grep stops:
      its buffer is full without a newline, and the next read asks for no bytes. */
  function Unread(input: str): str {
    var i := LineEnd(input);
    if i >= |input| then [] else if i > BUFSIZE - 2 then input else Unread(input[i + 1..])
  }

  /** What grep misses is exactly what lies from a line that is too long on; so it writes
      all matching lines if and only if no line from there on matches. */
  lemma {:induction false} MissesUnread(re: str, input: str)
    ensures MatchingLines(re, input) == Output(re, input) + MatchingLines(re, Unread(input))
    ensures Output(re, input) == MatchingLines(re, input) <==> MatchingLines(re, Unread(input)) == []
  {
    var i := LineEnd(input);
    if i < |input| && i <= BUFSIZE - 2 {
      MissesUnread(re, input[i + 1..]);
    }
  }

  ghost predicate ShortLines(input: str) {
    var i := LineEnd(input);
    i < |input| ==> i <= BUFSIZE - 2 && ShortLines(input[i + 1..])
  }

  /** With lines of at most 1022 characters nothing is missed. */
  lemma {:induction false} ShortLinesAll(re: str, input: str)
    ensures ShortLines(input) <==> Unread(input) == []
    ensures ShortLines(input) ==> Output(re, input) == MatchingLines(re, input)
  {
    var i := LineEnd(input);
    MissesUnread(re, input);
    if i < |input| && i <= BUFSIZE - 2 {
      ShortLinesAll(re, input[i + 1..]);
    }
  }

  lemma LineEndAt(s: str, i: int)
    requires 0 <= i <= |s| && (forall j :: 0 <= j < i ==> s[j] != '\n') && (i < |s| ==> s[i] == '\n')
    ensures LineEnd(s) == i
  {
  }

  /** A matching line of 1023 characters is missed. */
  lemma LongLineMissed()
    ensures var input := seq(1023, _ => 'a') + ['\n'];
            Output(['a'], input) == [] && MatchingLines(['a'], input) == input
  {
    var line := seq(1023, _ => 'a');
    var input := line + ['\n'];
    LineEndAt(input, 1023);
    assert input[..1023] == line && input[1024..] == [];
    assert line[0..][..1] == ['a'];
    assert Items(['a']) == [One('a')];
    assert ItemMatches(One('a'), ['a'][..1]) && InLanguage([], ['a'][1..]);
    assert Splits([One('a')], ['a'], 1);
    assert PrefixMatches(['a'], line[0..], 1);
    assert MatchesFrom(['a'], line, 0);
    assert input[..1024] == input;
    assert MatchingLines(['a'], []) == [];
  }

  ghost predicate NoNewline(s: str) {
    forall i {:trigger s[i]} :: 0 <= i < |s| ==> s[i] != '\n'
  }

  ghost predicate NoNulIn(s: str) {
    forall i {:trigger s[i]} :: 0 <= i < |s| ==> s[i] != NUL
  }

  /** The output lacks exactly `d`, which is what the input from b on gives. */
  ghost predicate Debt(re: str, input: str, out: str, b: nat, d: str) {
    b <= |input| && d == Output(re, input[b..]) && out + d == Output(re, input)
  }

  ghost predicate Owes(re: str, input: str, out: str, b: nat) {
    exists d :: Debt(re, input, out, b, d)
  }

  /** The output after a line of k characters was matched. */
  ghost function Written(re: str, held: str, k: nat, out: str): str
    requires k < |held|
  {
    if Matches(re, held[..k]) then out + held[..k + 1] else out
  }

  /** What is left when grep() stops gives no more output: the input ended, or the buffer
      is full of a line that is too long. */
  lemma LastLine(re: str, held: str, input: str, out: str, b: nat, end: nat)
    requires b <= end <= |input| && held == input[b..end] && Owes(re, input, out, b)
    requires (end == |input| || |held| == BUFSIZE - 1) && NoNewline(held)
    ensures out == Output(re, input)
  {
    var s := input[b..];
    var i := LineEnd(s);
    forall j | 0 <= j < |held| ensures s[j] != '\n' {
      assert s[j] == held[j];
    }
    var d :| Debt(re, input, out, b, d);
    assert d == [];
  }

  /** The held text begins with a whole line of the input. */
  lemma LineText(held: str, input: str, b: nat, e: nat, end: nat)
    requires b <= e < end <= |input| && held == input[b..end] && held[e - b] == '\n'
    requires NoNewline(held[..e - b])
    ensures held[..e - b] == input[b..e] && held[..e + 1 - b] == input[b..e + 1]
    ensures held[e + 1 - b..] == input[e + 1..end]
    ensures input[e] == '\n' && forall i :: b <= i < e ==> input[i] != '\n'
  {
    forall i | b <= i < e ensures input[i] != '\n' {
      assert input[i] == held[..e - b][i - b];
    }
  }

  lemma Regroup(a: str, b: str, c: str)
    ensures a + b + c == a + (b + c)
  {
  }

  /** One whole line of the input. */
  lemma OutputStep(re: str, input: str, b: nat, e: nat)
    requires b <= e < |input| && input[e] == '\n' && (forall i :: b <= i < e ==> input[i] != '\n')
    requires e - b <= BUFSIZE - 2
    ensures Output(re, input[b..]) == (if Matches(re, input[b..e]) then input[b..e + 1]
                                       else []) + Output(re, input[e + 1..])
  {
    var s := input[b..];
    LineEndAt(s, e - b);
    assert s[..e - b] == input[b..e] && s[..e - b + 1] == input[b..e + 1] && s[e - b + 1..] == input[e + 1..];
  }

  lemma LinePaid(re: str, input: str, out0: str, out1: str, b: nat, e: nat)
    requires b <= e < |input| && input[e] == '\n' && (forall i :: b <= i < e ==> input[i] != '\n')
    requires e - b <= BUFSIZE - 2
    requires out1 == (if Matches(re, input[b..e]) then out0 + input[b..e + 1] else out0)
    requires Owes(re, input, out0, b)
    ensures Owes(re, input, out1, e + 1)
  {
    var line := if Matches(re, input[b..e]) then input[b..e + 1] else [];
    OutputStep(re, input, b, e);
    var rest, all := Output(re, input[e + 1..]), Output(re, input);
    assert out1 == out0 + line;
    Regroup(out0, line, rest);
    assert Debt(re, input, out1, e + 1, rest);
  }

  /** The held text's first line, of k characters, dealt with: what is pending is the rest. */
  lemma LineDone(re: str, input: str, held: str, out0: str, out1: str, b: nat, k: nat, next: nat, end: nat)
    requires next == b + k + 1 && b + k < end <= |input| && held == input[b..end] && held[k] == '\n'
    requires NoNewline(held[..k]) && |held| < BUFSIZE
    requires out1 == (if Matches(re, held[..k]) then out0 + held[..k + 1] else out0)
    requires Owes(re, input, out0, b)
    ensures held[k + 1..] == input[next..end] && Owes(re, input, out1, next)
  {
    var e := b + k;
    LineText(held, input, b, e, end);
    LinePaid(re, input, out0, out1, b, e);
  }

  class Filter {
    const buf: array<char>
    /** The input, and how much of it read() has delivered. */
    const input: str

    var pos: nat
    var out: str

    constructor (source: str)
      ensures buf.Length == BUFSIZE && fresh(buf) && input == source && pos == 0 && out == []
    {
      buf := new char[BUFSIZE](_ => NUL);
      input, pos, out := source, 0, [];
    }

    /** read(): between one and `max` bytes, as it likes; none at the end of the input. */
    method Read(at: nat, max: nat) returns (n: nat)
      requires buf.Length == BUFSIZE && pos <= |input| && at + max <= BUFSIZE
      modifies this`pos, buf
      ensures n <= max && pos == old(pos) + n <= |input| && (n == 0 ==> max == 0 || pos == |input|)
      ensures buf[at..at + n] == input[old(pos)..pos] && buf[..at] == old(buf[..at])
    {
      var left := |input| - pos;
      var most := if left < max then left else max;
      var some: int := *;
      n := if some > most then most else if some > 0 then some else if most > 0 then 1 else 0;
      var i := 0;
      while i < n
        invariant 0 <= i <= n && pos == old(pos) && buf[at..at + i] == input[pos..pos + i]
        invariant buf[..at] == old(buf[..at])
      {
        buf[at + i] := input[pos + i];
        i := i + 1;
      }
      pos := pos + n;
    }

    /** strchr(p, newline): its position, or the string's end, which is at m. */
    method FindNewline(p: nat, m: nat) returns (q: nat)
      requires buf.Length == BUFSIZE && p <= m < BUFSIZE && buf[m] == NUL
      requires forall i :: p <= i < m ==> buf[i] != NUL
      ensures p <= q <= m && (q < m ==> buf[q] == '\n') && forall i :: p <= i < q ==> buf[i] != '\n'
    {
      q := p;
      while buf[q] != '\n' && buf[q] != NUL
        invariant p <= q <= m && forall i :: p <= i < q ==> buf[i] != '\n'
        decreases m - q
      {
        q := q + 1;
      }
    }

    /** What is still in the buffer from p on is the input from `base` + p on, and the
        output lacks exactly what that and the rest of the input give. */
    ghost predicate Pending(re: str, base: nat, p: nat, m: nat)
      reads this, buf
    {
      && buf.Length == BUFSIZE && p <= m < BUFSIZE && base + m == pos <= |input|
      && buf[p..m] == input[base + p..pos]
      && Owes(re, input, out, base + p) && NoNulIn(input)
    }

    lemma NoNul(re: str, base: nat, p: nat, m: nat)
      requires Pending(re, base, p, m)
      ensures forall i :: p <= i < m ==> buf[i] != NUL
    {
      forall i | p <= i < m ensures buf[i] != NUL {
        assert buf[p..m][i - p] == input[base + p..pos][i - p];
      }
    }

    /** The loop's body: the newline becomes NUL, the line is matched and, with the newline
        restored, written. */
    method Emit(re: str, p: nat, q: nat, m: nat, ghost held: str, ghost k: nat)
      requires buf.Length == BUFSIZE && p <= q < m < BUFSIZE && k == q - p && buf[p..m] == held
      requires buf[q] == '\n' && buf[m] == NUL
      modifies this`out, buf
      ensures |held| == m - p && buf[q + 1..m] == held[k + 1..] && buf[m] == NUL
      ensures out == Written(re, held, k, old(out))
    {
      ghost var line := held[..k];
      buf[q] := NUL;
      assert buf[p..q] == line;
      var found := Match(re, buf[p..q]);
      if found {
        buf[q] := '\n';
        assert buf[p..q + 1] == held[..k + 1];
        out := out + buf[p..q + 1];
      }
    }

    /** One line, ended by the newline at q. */
    method Line(re: str, ghost base: nat, p: nat, q: nat, m: nat, ghost held: str, ghost k: nat)
      returns (p': nat)
      requires Pending(re, base, p, m) && buf[m] == NUL && p <= q < m && buf[q] == '\n'
      requires k == q - p && held == buf[p..m] && held[k] == '\n' && NoNewline(held[..k])
      modifies this`out, buf
      ensures p' == q + 1 && Pending(re, base, p', m) && buf[m] == NUL
    {
      ghost var out0 := out;
      Emit(re, p, q, m, held, k);
      p' := q + 1;
      LineDone(re, input, held, out0, out, base + p, k, base + p', pos);
    }

    /** The inner loop of grep(): every whole line in the buffer is matched and, if it
        matches, written; p is then where the unfinished line begins. */
    method Lines(re: str, ghost base: nat, m: nat) returns (p: nat)
      requires Pending(re, base, 0, m) && buf[m] == NUL
      modifies this`out, buf
      ensures Pending(re, base, p, m) && NoNewline(buf[p..m])
    {
      p := 0;
      while true
        invariant Pending(re, base, p, m) && buf[m] == NUL
        decreases m - p
      {
        NoNul(re, base, p, m);
        var q := FindNewline(p, m);
        if q == m {
          assert forall i :: 0 <= i < m - p ==> buf[p..m][i] == buf[p + i];
          return;
        }
        ghost var held, k := buf[p..m], q - p;
        assert held[k] == buf[q];
        assert forall i :: 0 <= i < k ==> held[..k][i] == buf[p + i];
        p := Line(re, base, p, q, m, held, k);
      }
    }

    /** memmove() of the unfinished line to the start of the buffer. */
    method Move(p: nat, m: nat)
      requires buf.Length == BUFSIZE && p + m < BUFSIZE
      modifies buf
      ensures buf[..m] == old(buf[p..p + m])
    {
      var i := 0;
      while i < m
        invariant 0 <= i <= m && buf[..i] == old(buf[p..p + i])
        invariant forall j :: p + i <= j < p + m ==> buf[j] == old(buf[j])
      {
        buf[i] := buf[p + i];
        i := i + 1;
      }
    }

    /** The body of grep()'s loop, once the buffer holds m bytes. */
    method Filled(re: str, ghost base: nat, m: nat) returns (m': nat, ghost base': nat)
      requires buf.Length == BUFSIZE && m < BUFSIZE && base + m == pos <= |input|
      requires buf[0..m] == input[base..pos]
      requires Owes(re, input, out, base) && NoNulIn(input)
      modifies this`out, buf
      ensures Pending(re, base', 0, m') && NoNewline(buf[0..m'])
    {
      buf[m] := NUL;
      assert buf[0..m] == input[base..pos];
      var p := Lines(re, base, m);
      m' := m - p;
      ghost var held := buf[p..m];
      Move(p, m');
      base' := base + p;
      assert buf[0..m'] == held;
    }

    /** grep(): whatever the sizes of the reads, the output is the same. */
    method Run(re: str)
      requires buf.Length == BUFSIZE && pos == 0 && out == [] && NoNulIn(input)
      modifies this`pos, this`out, buf
      ensures out == Output(re, input)
    {
      var m := 0;
      ghost var base: nat := 0;
      assert input[0..] == input;
      assert Debt(re, input, out, 0, Output(re, input));
      var n := 1;
      while n != 0
        invariant Pending(re, base, 0, m) && NoNewline(buf[0..m])
        invariant n == 0 ==> m == BUFSIZE - 1 || pos == |input|
        decreases |input| - pos, if n == 0 then 0 else 1
      {
        ghost var held := buf[0..m];
        n := Read(m, BUFSIZE - m - 1);
        if n != 0 {
          assert buf[0..m + n] == held + input[base + m..pos] == input[base..pos];
          m, base := Filled(re, base, m + n);
        }
      }
      LastLine(re, buf[0..m], input, out, base, pos);
    }
  }
}
