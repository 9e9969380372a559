/** Word count: splitting a text at white space, and finding the words of a chunk in place. */
module WordCount {

  function Upper(c: char): char { if 'a' <= c <= 'z' then c - 'a' + 'A' else c }

  predicate IsLetter(c: char) { 'A' <= Upper(c) <= 'Z' }

  /** A character that may stand in a word, though not begin one. */
  predicate InWord(c: char) { IsLetter(c) || c == '\'' }

  predicate IsSpace(c: char) { c == ' ' || c == '\t' || c == '\r' || c == '\n' }

  // -------------------------------------------------------------------------------------
  // The words of a text

  /** How many characters at the start may stand in a word. */
  function WordLength(s: string): (n: nat)
    ensures n <= |s| && (forall i :: 0 <= i < n ==> InWord(s[i])) && (n < |s| ==> !InWord(s[n]))
  {
    if s != [] && InWord(s[0]) then 1 + WordLength(s[1..]) else 0
  }

  function UpperAll(s: string): string { seq(|s|, i requires 0 <= i < |s| => Upper(s[i])) }

  /** The words of a text in upper case: each begins with a letter and is as long as can be. */
  function Words(s: string): seq<string>
    decreases |s|
  {
    if s == [] then []
    else if IsLetter(s[0]) then [UpperAll(s[..WordLength(s)])] + Words(s[WordLength(s)..])
    else Words(s[1..])
  }

  lemma {:induction false} WordLengthIs(s: string, n: nat)
    requires n <= |s| && (forall i :: 0 <= i < n ==> InWord(s[i])) && (n < |s| ==> !InWord(s[n]))
    ensures WordLength(s) == n
  {
  }

  /** A text may be cut before a character that cannot stand in a word. */
  lemma {:induction false} WordsCut(a: string, b: string)
    requires b == [] || !InWord(b[0])
    ensures Words(a + b) == Words(a) + Words(b)
    decreases |a|
  {
    if a == [] {
      assert a + b == b;
    } else if IsLetter(a[0]) {
      var n := WordLength(a);
      forall i | 0 <= i < n ensures InWord((a + b)[i]) { assert (a + b)[i] == a[i]; }
      WordLengthIs(a + b, n);
      assert (a + b)[..n] == a[..n] && (a + b)[n..] == a[n..] + b;
      WordsCut(a[n..], b);
    } else {
      assert (a + b)[1..] == a[1..] + b;
      WordsCut(a[1..], b);
    }
  }

  /** Characters that cannot stand in a word are all alike. */
  lemma OtherStart(s: string, c: char)
    requires s != [] && !InWord(s[0]) && !InWord(c)
    ensures Words(s[0 := c]) == Words(s)
  {
    assert s[0 := c][1..] == s[1..];
  }

  // -------------------------------------------------------------------------------------
  // What these functions compute, by the codes of the characters

  /** Small letters move down by 32, in their order; no other character changes. */
  lemma UpperIs(c: char, d: char)
    ensures 'a' <= c <= 'z' ==> 'A' <= Upper(c) <= 'Z' && Upper(c) as int == c as int - 32
    ensures 'a' <= c < d <= 'z' ==> Upper(c) < Upper(d)
    ensures !('a' <= c <= 'z') ==> Upper(c) == c
  {
  }

  lemma WordCharacters(c: char)
    ensures IsLetter(c) <==> 'a' <= c <= 'z' || 'A' <= c <= 'Z'
    ensures InWord(c) <==> 'a' <= c <= 'z' || 'A' <= c <= 'Z' || c == '\''
    ensures IsSpace(c) <==> c in " \t\r\n"
  {
  }

  predicate IsAsciiLetter(c: char) { 'a' <= c <= 'z' || 'A' <= c <= 'Z' }

  /** s[a..b] begins with a letter, has only letters and apostrophes, and is followed by neither. */
  ghost predicate IsWordAt(s: string, a: nat, b: nat) {
    && a < b <= |s| && IsAsciiLetter(s[a])
    && (forall k :: a <= k < b ==> IsAsciiLetter(s[k]) || s[k] == '\'')
    && (b < |s| ==> !IsAsciiLetter(s[b]) && s[b] != '\'')
  }

  /** The word is the text from a to b with small letters moved down by 32. */
  ghost predicate IsUpperOf(word: string, s: string, a: nat, b: nat)
    requires a <= b <= |s|
  {
    |word| == b - a && forall k :: 0 <= k < |word| ==> word[k] as int == s[a + k] as int - if 'a' <= s[a + k] <= 'z' then 32 else 0
  }

  /** The words are at these places. */
  ghost predicate AreWordsAt(s: string, words: seq<string>, at: seq<(nat, nat)>) {
    |at| == |words| && forall k :: 0 <= k < |at| ==> IsWordAt(s, at[k].0, at[k].1) && IsUpperOf(words[k], s, at[k].0, at[k].1)
  }

  ghost predicate InOrder(at: seq<(nat, nat)>) { forall j, k :: 0 <= j < k < |at| ==> at[j].1 <= at[k].0 }

  ghost predicate InSome(at: seq<(nat, nat)>, i: nat) { exists k :: 0 <= k < |at| && at[k].0 <= i < at[k].1 }

  ghost function Shifted(at: seq<(nat, nat)>, n: nat): (r: seq<(nat, nat)>)
    ensures |r| == |at| && forall k :: 0 <= k < |at| ==> r[k] == (at[k].0 + n, at[k].1 + n)
  {
    seq(|at|, k requires 0 <= k < |at| => (at[k].0 + n, at[k].1 + n))
  }

  lemma WordLater(s: string, n: nat, word: string, a: nat, b: nat)
    requires n <= |s| && IsWordAt(s[n..], a, b) && IsUpperOf(word, s[n..], a, b)
    ensures IsWordAt(s, a + n, b + n) && IsUpperOf(word, s, a + n, b + n)
  {
    forall k | a + n <= k < b + n ensures IsAsciiLetter(s[k]) || s[k] == '\'' { assert s[n..][k - n] == s[k]; }
  }

  lemma InSomeLater(at: seq<(nat, nat)>, n: nat, i: nat)
    requires i >= n && InSome(at, i - n)
    ensures InSome(Shifted(at, n), i)
  {
    var k :| 0 <= k < |at| && at[k].0 <= i - n < at[k].1;
    assert Shifted(at, n)[k].0 <= i < Shifted(at, n)[k].1;
  }

  lemma WordsLater(s: string, n: nat, words: seq<string>, at: seq<(nat, nat)>)
    requires n <= |s| && AreWordsAt(s[n..], words, at)
    ensures AreWordsAt(s, words, Shifted(at, n))
  {
    forall k | 0 <= k < |at| ensures IsWordAt(s, at[k].0 + n, at[k].1 + n) && IsUpperOf(words[k], s, at[k].0 + n, at[k].1 + n) {
      WordLater(s, n, words[k], at[k].0, at[k].1);
    }
  }

  /** Every letter from position n on is in a word. */
  ghost predicate Covered(s: string, n: nat, at: seq<(nat, nat)>) {
    forall i :: n <= i < |s| && IsAsciiLetter(s[i]) ==> InSome(at, i)
  }

  lemma CoveredLater(s: string, n: nat, at: seq<(nat, nat)>)
    requires n <= |s| && Covered(s[n..], 0, at)
    ensures Covered(s, n, Shifted(at, n))
  {
    forall i | n <= i < |s| && IsAsciiLetter(s[i]) ensures InSome(Shifted(at, n), i) {
      assert s[n..][i - n] == s[i];
      InSomeLater(at, n, i);
    }
  }

  lemma InSomeTail(at: seq<(nat, nat)>, x: (nat, nat), i: nat)
    requires InSome(at, i)
    ensures InSome([x] + at, i)
  {
    var k :| 0 <= k < |at| && at[k].0 <= i < at[k].1;
    assert ([x] + at)[k + 1] == at[k];
  }

  /** The words are at these places, one after the other, and no letter is outside all of them. */
  ghost predicate AllWordsAt(s: string, words: seq<string>, at: seq<(nat, nat)>) {
    AreWordsAt(s, words, at) && InOrder(at) && Covered(s, 0, at)
  }

  lemma WordAtStart(s: string, n: nat)
    requires 0 < n <= |s| && IsLetter(s[0]) && (forall i :: 0 <= i < n ==> InWord(s[i])) && (n < |s| ==> !InWord(s[n]))
    ensures IsWordAt(s, 0, n)
  {
  }

  lemma UpperAtStart(s: string, n: nat)
    requires n <= |s|
    ensures IsUpperOf(UpperAll(s[..n]), s, 0, n)
  {
  }

  lemma WithFirst(s: string, n: nat, word: string, words: seq<string>, at: seq<(nat, nat)>)
    requires 0 < n <= |s| && IsWordAt(s, 0, n) && IsUpperOf(word, s, 0, n) && AllWordsAt(s[n..], words, at)
    ensures AllWordsAt(s, [word] + words, [(0, n)] + Shifted(at, n))
  {
    WordsLater(s, n, words, at);
    CoveredLater(s, n, at);
    WordBefore(s, n, word, words, Shifted(at, n));
    OrderBefore(n, at);
    CoveredBefore(s, n, Shifted(at, n));
  }

  lemma WordBefore(s: string, n: nat, word: string, words: seq<string>, at: seq<(nat, nat)>)
    requires 0 < n <= |s| && IsWordAt(s, 0, n) && IsUpperOf(word, s, 0, n) && AreWordsAt(s, words, at)
    ensures AreWordsAt(s, [word] + words, [(0, n)] + at)
  {
    var all, r := [word] + words, [(0, n)] + at;
    forall k | 0 <= k < |r| ensures IsWordAt(s, r[k].0, r[k].1) && IsUpperOf(all[k], s, r[k].0, r[k].1) {
      if k > 0 { assert r[k] == at[k - 1] && all[k] == words[k - 1]; }
    }
  }

  lemma OrderBefore(n: nat, at: seq<(nat, nat)>)
    requires InOrder(at)
    ensures InOrder([(0, n)] + Shifted(at, n))
  {
  }

  lemma CoveredBefore(s: string, n: nat, at: seq<(nat, nat)>)
    requires 0 < n <= |s| && Covered(s, n, at)
    ensures Covered(s, 0, [(0, n)] + at)
  {
    forall i | 0 <= i < |s| && IsAsciiLetter(s[i]) ensures InSome([(0, n)] + at, i) {
      if i < n { assert ([(0, n)] + at)[0].0 <= i < ([(0, n)] + at)[0].1; } else { InSomeTail(at, (0, n), i); }
    }
  }

  lemma WithoutFirst(s: string, words: seq<string>, at: seq<(nat, nat)>)
    requires s != [] && !IsAsciiLetter(s[0]) && AllWordsAt(s[1..], words, at)
    ensures AllWordsAt(s, words, Shifted(at, 1))
  {
    WordsLater(s, 1, words, at);
    CoveredLater(s, 1, at);
  }

  /** The words of a text are these, in this order: each as long as can be, none overlapping another,
      and no letter outside all of them. */
  lemma {:induction false} WordsAre(s: string) returns (at: seq<(nat, nat)>)
    ensures AllWordsAt(s, Words(s), at)
    decreases |s|
  {
    if s == [] {
      at := [];
    } else if IsLetter(s[0]) {
      var n := WordLength(s);
      WordAtStart(s, n);
      UpperAtStart(s, n);
      var rest := WordsAre(s[n..]);
      WithFirst(s, n, UpperAll(s[..n]), Words(s[n..]), rest);
      at := [(0, n)] + Shifted(rest, n);
    } else {
      var rest := WordsAre(s[1..]);
      WithoutFirst(s, Words(s[1..]), rest);
      at := Shifted(rest, 1);
    }
  }

  // -------------------------------------------------------------------------------------
  // wordcount_splitter

  /** The chunks tile the text, and each but the first begins with white space. */
  ghost predicate IsSplit(text: string, bounds: seq<nat>) {
    && |bounds| > 0 && bounds[0] == 0 && bounds[|bounds| - 1] == |text|
    && (forall i, j :: 0 <= i < j < |bounds| ==> bounds[i] < bounds[j])
    && (forall i :: 0 < i < |bounds| - 1 ==> bounds[i] < |text| && IsSpace(text[bounds[i]]))
  }

  /** The chunk from fpos ends at the first white space that is at least the wanted length away, or at
      the end of the text. */
  ghost predicate IsCut(text: string, fpos: nat, want: nat, end: nat) {
    && fpos < end <= |text|
    && (end < |text| ==> fpos + want <= end && IsSpace(text[end]))
    && (forall k :: fpos + want <= k < end ==> !IsSpace(text[k]))
  }

  /** wordcount_splitter: the length of the next chunk. */
  method SplitOff(text: string, fpos: nat, want: nat) returns (length: nat)
    requires fpos < |text| && want > 0
    ensures IsCut(text, fpos, want, fpos + length)
  {
    length := want;
    if fpos + length > |text| { length := |text| - fpos; }
    while fpos + length < |text| && !IsSpace(text[fpos + length])
      invariant 0 < length <= |text| - fpos && (length < want ==> fpos + length == |text|)
      invariant forall k :: fpos + want <= k < fpos + length ==> !IsSpace(text[k])
    {
      length := length + 1;
    }
  }

  /** Split until the end is reached. */
  method SplitAll(text: string, want: nat) returns (bounds: seq<nat>)
    requires want > 0
    ensures IsSplit(text, bounds) && forall i :: 0 <= i < |bounds| - 1 ==> IsCut(text, bounds[i], want, bounds[i + 1])
  {
    bounds := [0];
    var fpos := 0;
    while fpos < |text|
      invariant fpos <= |text| && |bounds| > 0 && bounds[0] == 0 && bounds[|bounds| - 1] == fpos
      invariant forall i, j :: 0 <= i < j < |bounds| ==> bounds[i] < bounds[j]
      invariant forall i :: 0 < i < |bounds| && bounds[i] < |text| ==> IsSpace(text[bounds[i]])
      invariant forall i :: 0 <= i < |bounds| - 1 ==> IsCut(text, bounds[i], want, bounds[i + 1])
      decreases |text| - fpos
    {
      var length := SplitOff(text, fpos, want);
      fpos := fpos + length;
      bounds := bounds + [fpos];
    }
  }

  /** The words of the first n chunks. */
  ghost function ChunkWords(text: string, bounds: seq<nat>, n: nat): seq<string>
    requires IsSplit(text, bounds) && n < |bounds|
  {
    if n == 0 then [] else ChunkWords(text, bounds, n - 1) + Words(text[bounds[n - 1]..bounds[n]])
  }

  /** No word is cut: the words of the chunks are the words of the text. */
  lemma {:induction false} SplitKeepsWords(text: string, bounds: seq<nat>, n: nat)
    requires IsSplit(text, bounds) && n < |bounds|
    ensures bounds[n] <= |text| && ChunkWords(text, bounds, n) == Words(text[..bounds[n]])
  {
    assert n == |bounds| - 1 || bounds[n] < bounds[|bounds| - 1];
    if n > 0 {
      SplitKeepsWords(text, bounds, n - 1);
      var a, b := text[..bounds[n - 1]], text[bounds[n - 1]..bounds[n]];
      assert text[..bounds[n]] == a + b;
      if n > 1 { assert IsSpace(b[0]); WordsCut(a, b); }
      else { assert a == []; }
    }
  }

  // -------------------------------------------------------------------------------------
  // wordcount_map

  /** A word emitted by its place in the buffer. */
  datatype Emit = Emit(pos: nat, text: string)

  ghost function Texts(emits: seq<Emit>): (r: seq<string>)
    ensures |r| == |emits|
  {
    seq(|emits|, i requires 0 <= i < |emits| => emits[i].text)
  }

  /** The buffer holds the word at its place, with a zero after it. */
  ghost predicate Stored(buf: seq<char>, e: Emit) {
    && e.pos + |e.text| < |buf| && buf[e.pos + |e.text|] == '\0'
    && forall i :: 0 <= i < |e.text| ==> buf[e.pos + i] == e.text[i]
  }

  /** The word is inside the chunk, and at its start only if a letter is there. */
  ghost predicate Inside(e: Emit, lo: nat, hi: nat, first: char) {
    e.text != [] && lo <= e.pos && e.pos + |e.text| <= hi && (e.pos == lo ==> IsLetter(first))
  }

  /** The word has the characters of the chunk at its place, but for their case. */
  ghost predicate FromChunk(s: string, lo: nat, e: Emit) {
    lo <= e.pos && e.pos + |e.text| <= lo + |s| && IsUpperOf(e.text, s, e.pos - lo, e.pos - lo + |e.text|)
  }

  ghost predicate AllFromChunk(s: string, lo: nat, emits: seq<Emit>) { forall e :: e in emits ==> FromChunk(s, lo, e) }

  lemma WordEnds(s: string, start: nat, i: nat)
    requires start < i <= |s| && IsLetter(s[start]) && (forall k :: start <= k < i ==> InWord(s[k])) && (i < |s| ==> !InWord(s[i]))
    ensures Words(s[start..]) == [UpperAll(s[start..i])] + Words(s[i..])
  {
    WordLengthIs(s[start..], i - start);
    assert s[start..][..i - start] == s[start..i] && s[start..][i - start..] == s[i..];
  }

  lemma SkipOther(s: string, i: nat)
    requires i < |s| && !IsLetter(s[i])
    ensures Words(s[i..]) == Words(s[i + 1..])
  {
    assert s[i..][1..] == s[i + 1..];
  }

  /** The state of wordcount_map before character i: what has been emitted, and the word that has
      begun at start, if any. */
  ghost predicate Mapping(s: string, lo: nat, buf: seq<char>, i: nat, inWord: bool, start: nat, emits: seq<Emit>)
    requires i <= |s| && start <= |s| && lo + |s| < |buf|
  {
    && Texts(emits) + Words(s[if inWord then start else i..]) == Words(s)
    && (inWord ==> start < i && IsLetter(s[start]))
    && (inWord ==> forall k :: start <= k < i ==> InWord(s[k]) && buf[lo + k] == Upper(s[k]))
    && (forall k :: i <= k < |s| ==> buf[lo + k] == s[k])
    && (forall e :: e in emits ==> Stored(buf, e) && Inside(e, lo, lo + |s|, if s == [] then '\0' else s[0]) && e.pos + |e.text| < lo + i)
    && AllFromChunk(s, lo, emits)
    && (inWord ==> forall e :: e in emits ==> e.pos + |e.text| < lo + start)
  }

  lemma Associate(a: seq<string>, b: seq<string>, c: seq<string>)
    ensures a + (b + c) == a + b + c
  {
  }

  /** A character that goes on with the word. */
  lemma GrowWord(s: string, lo: nat, buf: seq<char>, i: nat, start: nat, emits: seq<Emit>)
    requires i < |s| && start <= |s| && lo + |s| < |buf| && Mapping(s, lo, buf, i, true, start, emits) && InWord(s[i])
    ensures Mapping(s, lo, buf[lo + i := Upper(s[i])], i + 1, true, start, emits)
  {
    forall e | e in emits ensures Stored(buf[lo + i := Upper(s[i])], e) { assert Stored(buf, e); }
  }

  /** A letter that begins a word. */
  lemma BeginWord(s: string, lo: nat, buf: seq<char>, i: nat, start: nat, emits: seq<Emit>)
    requires i < |s| && start <= |s| && lo + |s| < |buf| && Mapping(s, lo, buf, i, false, start, emits) && IsLetter(s[i])
    ensures Mapping(s, lo, buf[lo + i := Upper(s[i])], i + 1, true, i, emits)
  {
    forall e | e in emits ensures Stored(buf[lo + i := Upper(s[i])], e) { assert Stored(buf, e); }
  }

  lemma SkipMapping(s: string, lo: nat, buf: seq<char>, i: nat, start: nat, emits: seq<Emit>)
    requires i < |s| && start <= |s| && lo + |s| < |buf| && Mapping(s, lo, buf, i, false, start, emits) && !IsLetter(s[i])
    ensures Mapping(s, lo, buf, i + 1, false, start, emits)
  {
    SkipOther(s, i);
  }

  /** The word that ends at i. */
  lemma EndWord(s: string, lo: nat, buf: seq<char>, i: nat, start: nat, emits: seq<Emit>)
    requires i <= |s| && start <= |s| && lo + |s| < |buf| && Mapping(s, lo, buf, i, true, start, emits) && (i < |s| ==> !InWord(s[i]))
    ensures var more := emits + [Emit(lo + start, buf[lo + start..lo + i])];
      && Texts(more) + Words(s[i..]) == Words(s)
      && forall e :: e in more ==> Stored(buf[lo + i := '\0'], e) && Inside(e, lo, lo + |s|, s[0]) && e.pos + |e.text| <= lo + i
  {
    EndedWords(s, lo, buf, i, start, emits);
    EndedStored(s, lo, buf, i, start, emits);
  }

  lemma EndedWords(s: string, lo: nat, buf: seq<char>, i: nat, start: nat, emits: seq<Emit>)
    requires i <= |s| && start <= |s| && lo + |s| < |buf| && Mapping(s, lo, buf, i, true, start, emits) && (i < |s| ==> !InWord(s[i]))
    ensures Texts(emits + [Emit(lo + start, buf[lo + start..lo + i])]) + Words(s[i..]) == Words(s)
  {
    var text := buf[lo + start..lo + i];
    WordEnds(s, start, i);
    WordText(s, lo, buf, i, start);
    TextsAppend(emits, Emit(lo + start, text));
    Associate(Texts(emits), [text], Words(s[i..]));
  }

  lemma WordText(s: string, lo: nat, buf: seq<char>, i: nat, start: nat)
    requires start <= i <= |s| && lo + |s| < |buf| && forall k :: start <= k < i ==> buf[lo + k] == Upper(s[k])
    ensures buf[lo + start..lo + i] == UpperAll(s[start..i])
  {
  }

  lemma TextsAppend(emits: seq<Emit>, e: Emit)
    ensures Texts(emits + [e]) == Texts(emits) + [e.text]
  {
  }

  lemma EndedStored(s: string, lo: nat, buf: seq<char>, i: nat, start: nat, emits: seq<Emit>)
    requires i <= |s| && start <= |s| && lo + |s| < |buf| && Mapping(s, lo, buf, i, true, start, emits)
    ensures forall e :: e in emits + [Emit(lo + start, buf[lo + start..lo + i])] ==>
      Stored(buf[lo + i := '\0'], e) && Inside(e, lo, lo + |s|, s[0]) && e.pos + |e.text| <= lo + i
  {
    var last := Emit(lo + start, buf[lo + start..lo + i]);
    forall e | e in emits + [last] ensures Stored(buf[lo + i := '\0'], e) && Inside(e, lo, lo + |s|, s[0]) && e.pos + |e.text| <= lo + i {
      if e in emits { assert Stored(buf, e); } else { assert e == last; }
    }
  }

  lemma EndedFromChunk(s: string, lo: nat, buf: seq<char>, i: nat, start: nat, emits: seq<Emit>)
    requires i <= |s| && start <= |s| && lo + |s| < |buf| && Mapping(s, lo, buf, i, true, start, emits)
    ensures AllFromChunk(s, lo, emits + [Emit(lo + start, buf[lo + start..lo + i])])
  {
    assert FromChunk(s, lo, Emit(lo + start, buf[lo + start..lo + i]));
  }

  lemma AfterWord(s: string, lo: nat, buf: seq<char>, i: nat, start: nat, emits: seq<Emit>)
    requires i < |s| && start <= |s| && lo + |s| < |buf| && Mapping(s, lo, buf, i, true, start, emits) && !InWord(s[i])
    ensures Mapping(s, lo, buf[lo + i := '\0'], i + 1, false, start, emits + [Emit(lo + start, buf[lo + start..lo + i])])
  {
    EndWord(s, lo, buf, i, start, emits);
    EndedFromChunk(s, lo, buf, i, start, emits);
    SkipOther(s, i);
  }

  /** Nothing outside the chunk has changed, nor has its first character when it starts no word. */
  ghost predicate OnlyIn(was: seq<char>, buf: seq<char>, s: string, lo: nat, i: nat, inWord: bool, start: nat)
    requires lo + |s| < |buf|
  {
    && |was| == |buf| && (forall k :: 0 <= k < |buf| && (k < lo || k >= lo + |s|) ==> buf[k] == was[k])
    && (s != [] && !IsLetter(s[0]) ==> buf[lo] == s[0] && (inWord ==> start > 0) && (i == 0 ==> !inWord))
  }

  lemma OnlyInNext(was: seq<char>, before: seq<char>, after: seq<char>, s: string, lo: nat, i: nat, inWord: bool, start: nat,
                   inWord': bool, start': nat)
    requires i < |s| && lo + |s| < |before| == |after| && OnlyIn(was, before, s, lo, i, inWord, start)
    requires forall k :: 0 <= k < |before| && k != lo + i ==> after[k] == before[k]
    requires !inWord && !IsLetter(s[i]) ==> !inWord' && after[lo + i] == before[lo + i]
    requires inWord' ==> if inWord then start' == start else start' == i
    ensures OnlyIn(was, after, s, lo, i + 1, inWord', start')
  {
  }

  /** A thread before character i of its chunk: the word that has begun at start, if any, and what it
      has emitted; done after the loop. */
  datatype Worker = Worker(i: nat, inWord: bool, start: nat, emits: seq<Emit>, done: bool)

  /** One turn of the loop of wordcount_map. */
  ghost function Turn(buf: seq<char>, lo: nat, w: Worker): (seq<char>, Worker)
    requires lo + w.i < |buf| && w.start <= w.i
  {
    var c := Upper(buf[lo + w.i]);
    if w.inWord then
      if (c < 'A' || c > 'Z') && c != '\''
      then (buf[lo + w.i := '\0'], Worker(w.i + 1, false, w.start, w.emits + [Emit(lo + w.start, buf[lo + w.start..lo + w.i])], false))
      else (buf[lo + w.i := c], Worker(w.i + 1, true, w.start, w.emits, false))
    else if 'A' <= c <= 'Z' then (buf[lo + w.i := c], Worker(w.i + 1, true, w.i, w.emits, false))
    else (buf, Worker(w.i + 1, false, w.start, w.emits, false))
  }

  /** After the loop. */
  ghost function Last(buf: seq<char>, lo: nat, w: Worker): (seq<char>, Worker)
    requires lo + w.i < |buf| && w.start <= w.i
  {
    if w.inWord
    then (buf[lo + w.i := '\0'], Worker(w.i, true, w.start, w.emits + [Emit(lo + w.start, buf[lo + w.start..lo + w.i])], true))
    else (buf, Worker(w.i, false, w.start, w.emits, true))
  }

  /** The thread stands before character i of the chunk. */
  ghost predicate At(s: string, lo: nat, buf: seq<char>, w: Worker) {
    lo + |s| < |buf| && w.i <= |s| && w.start <= w.i && Mapping(s, lo, buf, w.i, w.inWord, w.start, w.emits)
  }

  /** The branches of a turn by the character of the chunk. */
  lemma TurnIs(buf: seq<char>, lo: nat, c: char, w: Worker)
    requires lo + w.i < |buf| && w.start <= w.i && buf[lo + w.i] == c
    ensures Turn(buf, lo, w) ==
            if w.inWord then
              if InWord(c) then (buf[lo + w.i := Upper(c)], Worker(w.i + 1, true, w.start, w.emits, false))
              else (buf[lo + w.i := '\0'], Worker(w.i + 1, false, w.start, w.emits + [Emit(lo + w.start, buf[lo + w.start..lo + w.i])], false))
            else if IsLetter(c) then (buf[lo + w.i := Upper(c)], Worker(w.i + 1, true, w.i, w.emits, false))
            else (buf, Worker(w.i + 1, false, w.start, w.emits, false))
  {
  }

  lemma TurnInWord(buf: seq<char>, lo: nat, s: string, w: Worker)
    requires At(s, lo, buf, w) && w.i < |s| && w.inWord && InWord(s[w.i])
    ensures At(s, lo, buf[lo + w.i := Upper(s[w.i])], Worker(w.i + 1, true, w.start, w.emits, false))
  {
    GrowWord(s, lo, buf, w.i, w.start, w.emits);
  }

  lemma TurnAfterWord(buf: seq<char>, lo: nat, s: string, w: Worker)
    requires At(s, lo, buf, w) && w.i < |s| && w.inWord && !InWord(s[w.i])
    ensures At(s, lo, buf[lo + w.i := '\0'], Worker(w.i + 1, false, w.start, w.emits + [Emit(lo + w.start, buf[lo + w.start..lo + w.i])], false))
  {
    AfterWord(s, lo, buf, w.i, w.start, w.emits);
  }

  lemma TurnOutside(buf: seq<char>, lo: nat, s: string, w: Worker)
    requires At(s, lo, buf, w) && w.i < |s| && !w.inWord
    ensures IsLetter(s[w.i]) ==> At(s, lo, buf[lo + w.i := Upper(s[w.i])], Worker(w.i + 1, true, w.i, w.emits, false))
    ensures !IsLetter(s[w.i]) ==> At(s, lo, buf, Worker(w.i + 1, false, w.start, w.emits, false))
  {
    if IsLetter(s[w.i]) { BeginWord(s, lo, buf, w.i, w.start, w.emits); } else { SkipMapping(s, lo, buf, w.i, w.start, w.emits); }
  }

  lemma TurnMapping(buf: seq<char>, lo: nat, s: string, w: Worker)
    requires At(s, lo, buf, w) && w.i < |s| && buf[lo + w.i] == s[w.i]
    ensures At(s, lo, Turn(buf, lo, w).0, Turn(buf, lo, w).1)
  {
    TurnIs(buf, lo, s[w.i], w);
    if w.inWord && InWord(s[w.i]) { TurnInWord(buf, lo, s, w); } else if w.inWord { TurnAfterWord(buf, lo, s, w); } else { TurnOutside(buf, lo, s, w); }
  }

  /** The body of the loop does what a turn does. */
  method TurnOnce(lo: nat, buf: array<char>, i: nat, inWord: bool, start: nat, emits: seq<Emit>)
    returns (inWord': bool, start': nat, emits': seq<Emit>)
    requires lo + i < buf.Length && start <= i
    modifies buf
    ensures (buf[..], Worker(i + 1, inWord', start', emits', false)) == Turn(old(buf[..]), lo, Worker(i, inWord, start, emits, false))
  {
    inWord', start', emits' := inWord, start, emits;
    ghost var before := buf[..];
    var c := Upper(buf[lo + i]);
    if inWord {
      if (c < 'A' || c > 'Z') && c != '\'' {
        emits' := emits + [Emit(lo + start, buf[lo + start..lo + i])];
        buf[lo + i] := '\0';
        inWord' := false;
        assert buf[..] == before[lo + i := '\0'];
      } else {
        buf[lo + i] := c;
        assert buf[..] == before[lo + i := c];
      }
    } else if 'A' <= c <= 'Z' {
      start' := i;
      buf[lo + i] := c;
      inWord' := true;
      assert buf[..] == before[lo + i := c];
    }
  }

  /** The thread stands before character i, and nothing but its chunk has changed. */
  ghost predicate GoneTo(s: string, lo: nat, was: seq<char>, buf: seq<char>, w: Worker) {
    At(s, lo, buf, w) && OnlyIn(was, buf, s, lo, w.i, w.inWord, w.start)
  }

  /** One turn of the loop. */
  method MapChar(ghost s: string, lo: nat, buf: array<char>, i: nat, inWord: bool, start: nat, emits: seq<Emit>, ghost was: seq<char>)
    returns (inWord': bool, start': nat, emits': seq<Emit>)
    requires i < |s| && GoneTo(s, lo, was, buf[..], Worker(i, inWord, start, emits, false))
    modifies buf
    ensures GoneTo(s, lo, was, buf[..], Worker(i + 1, inWord', start', emits', false))
  {
    ghost var before, w := buf[..], Worker(i, inWord, start, emits, false);
    assert before[lo + i] == s[i];
    TurnMapping(before, lo, s, w);
    TurnIs(before, lo, s[i], w);
    inWord', start', emits' := TurnOnce(lo, buf, i, inWord, start, emits);
    OnlyInNext(was, before, buf[..], s, lo, i, inWord, start, inWord', start');
  }

  lemma MappingStarts(s: string, lo: nat, buf: seq<char>)
    requires s != [] && lo + |s| < |buf| && buf[lo..lo + |s|] == s
    ensures Mapping(s, lo, buf, 0, false, 0, []) && OnlyIn(buf, buf, s, lo, 0, false, 0)
  {
    assert s[0..] == s;
    assert forall k :: 0 <= k < |s| ==> s[k] == buf[lo + k];
  }

  /** After the loop: a word at the end of the chunk gets its zero in the character after the chunk. */
  method LastWord(ghost s: string, buf: array<char>, lo: nat, hi: nat, inWord: bool, start: nat, emits: seq<Emit>)
    returns (all: seq<Emit>)
    requires lo + |s| == hi < buf.Length && start <= |s| && s != [] && Mapping(s, lo, buf[..], |s|, inWord, start, emits)
    modifies buf
    ensures Texts(all) == Words(s) && AllFromChunk(s, lo, all)
    ensures forall e :: e in all ==> Stored(buf[..], e) && Inside(e, lo, hi, s[0])
    ensures forall i :: 0 <= i < buf.Length && i != hi ==> buf[i] == old(buf[i])
    ensures buf[hi] == old(buf[hi]) || buf[hi] == '\0'
    ensures (buf[..], Worker(|s|, inWord, start, all, true)) == Last(old(buf[..]), lo, Worker(|s|, inWord, start, emits, false))
  {
    ghost var before := buf[..];
    AfterLast(s, lo, before, Worker(|s|, inWord, start, emits, false));
    all := emits;
    if inWord {
      all := emits + [Emit(lo + start, buf[lo + start..hi])];
      buf[hi] := '\0';
      assert buf[..] == before[hi := '\0'];
    }
  }

  lemma AfterLast(s: string, lo: nat, buf: seq<char>, w: Worker)
    requires s != [] && At(s, lo, buf, w) && w.i == |s|
    ensures var (after, next) := Last(buf, lo, w);
      && Texts(next.emits) == Words(s) && AllFromChunk(s, lo, next.emits)
      && forall e :: e in next.emits ==> Stored(after, e) && Inside(e, lo, lo + |s|, s[0])
  {
    assert s[|s|..] == [];
    if w.inWord {
      EndWord(s, lo, buf, |s|, w.start, w.emits);
      EndedFromChunk(s, lo, buf, |s|, w.start, w.emits);
    }
  }

  lemma GoesFrom(s: string, lo: nat, buf: seq<char>)
    requires s != [] && lo + |s| < |buf| && buf[lo..lo + |s|] == s
    ensures GoneTo(s, lo, buf, buf, Worker(0, false, 0, [], false))
  {
    MappingStarts(s, lo, buf);
  }

  /** The loop. */
  method MapChars(buf: array<char>, lo: nat, n: nat, ghost s: string, ghost was: seq<char>)
    returns (inWord: bool, start: nat, emits: seq<Emit>)
    requires 0 < n == |s| && lo + n < buf.Length && was == buf[..] && was[lo..lo + n] == s
    modifies buf
    ensures GoneTo(s, lo, was, buf[..], Worker(n, inWord, start, emits, false))
  {
    inWord, start, emits := false, 0, [];
    GoesFrom(s, lo, was);
    for i := 0 to n
      invariant GoneTo(s, lo, was, buf[..], Worker(i, inWord, start, emits, false))
    {
      inWord, start, emits := MapChar(s, lo, buf, i, inWord, start, emits, was);
    }
  }

  /** wordcount_map: emit the words of the chunk lo..hi-1, each with the characters at its place but for
      the case.  Inside the chunk the words become upper
      case and get a zero after them; the character after the chunk may become a zero too. */
  method Map(buf: array<char>, lo: nat, hi: nat) returns (emits: seq<Emit>)
    requires lo < hi < buf.Length
    modifies buf
    ensures Texts(emits) == Words(old(buf[lo..hi])) && AllFromChunk(old(buf[lo..hi]), lo, emits)
    ensures forall e :: e in emits ==> Stored(buf[..], e) && Inside(e, lo, hi, old(buf[lo]))
    ensures forall i :: 0 <= i < buf.Length && (i < lo || i > hi) ==> buf[i] == old(buf[i])
    ensures buf[hi] == old(buf[hi]) || buf[hi] == '\0'
    ensures !IsLetter(old(buf[lo])) ==> buf[lo] == old(buf[lo])
  {
    ghost var was, s := buf[..], buf[lo..hi];
    var inWord, start;
    inWord, start, emits := MapChars(buf, lo, hi - lo, s, was);
    emits := LastWord(s, buf, lo, hi, inWord, start, emits);
  }

  // -------------------------------------------------------------------------------------
  // All chunks, in any order

  ghost function ChunkText(text: string, bounds: seq<nat>, c: nat): string
    requires IsSplit(text, bounds) && c + 1 < |bounds|
  {
    ChunkBounds(text, bounds, c);
    text[bounds[c]..bounds[c + 1]]
  }

  lemma ChunkBounds(text: string, bounds: seq<nat>, c: nat)
    requires IsSplit(text, bounds) && c + 1 < |bounds|
    ensures bounds[c] < bounds[c + 1] <= |text|
    ensures c > 0 ==> !InWord(text[bounds[c]])
  {
    assert c + 1 == |bounds| - 1 || bounds[c + 1] < bounds[|bounds| - 1];
  }

  /** The chunk has not been mapped; the chunk before it may have put a zero at its start. */
  ghost predicate Unmapped(buf: seq<char>, text: string, bounds: seq<nat>, c: nat)
    requires IsSplit(text, bounds) && c + 1 < |bounds| && |text| < |buf|
  {
    ChunkBounds(text, bounds, c);
    && (forall i :: bounds[c] < i < bounds[c + 1] ==> buf[i] == text[i])
    && (buf[bounds[c]] == text[bounds[c]] || (c > 0 && buf[bounds[c]] == '\0'))
  }

  /** The first character of a later chunk never becomes a letter. */
  ghost predicate StartOk(buf: seq<char>, text: string, bounds: seq<nat>, c: nat)
    requires IsSplit(text, bounds) && c + 1 < |bounds| && |text| < |buf|
  {
    ChunkBounds(text, bounds, c);
    c > 0 ==> !InWord(buf[bounds[c]])
  }

  /** The word belongs to chunk c and is in the buffer. */
  ghost predicate Kept(buf: seq<char>, bounds: seq<nat>, c: nat, e: Emit)
    requires c + 1 < |bounds|
  {
    && e.text != [] && bounds[c] <= e.pos && (c > 0 ==> bounds[c] < e.pos) && e.pos + |e.text| <= bounds[c + 1]
    && Stored(buf, e)
  }

  ghost predicate KeptBySome(buf: seq<char>, bounds: seq<nat>, done: seq<nat>, e: Emit) {
    exists c :: c in done && c + 1 < |bounds| && Kept(buf, bounds, c, e)
  }

  lemma UnmappedWords(buf: seq<char>, text: string, bounds: seq<nat>, c: nat)
    requires IsSplit(text, bounds) && c + 1 < |bounds| && |text| < |buf| && Unmapped(buf, text, bounds, c)
    ensures bounds[c] < bounds[c + 1] <= |text|
    ensures Words(buf[bounds[c]..bounds[c + 1]]) == Words(ChunkText(text, bounds, c))
  {
    ChunkBounds(text, bounds, c);
    var s, t := buf[bounds[c]..bounds[c + 1]], ChunkText(text, bounds, c);
    if s[0] == t[0] { assert s == t; }
    else {
      assert s == t[0 := '\0'];
      OtherStart(t, '\0');
    }
  }

  /** What mapping chunk d does to the buffer. */
  ghost predicate OnlyChunk(buf: seq<char>, after: seq<char>, lo: nat, hi: nat) {
    && |after| == |buf| && lo < hi < |buf|
    && (forall i :: 0 <= i < |buf| && (i < lo || i > hi) ==> after[i] == buf[i])
    && (after[hi] == buf[hi] || after[hi] == '\0')
    && (!IsLetter(buf[lo]) ==> after[lo] == buf[lo])
  }

  lemma BoundsOrdered(text: string, bounds: seq<nat>, c: nat, d: nat)
    requires IsSplit(text, bounds) && c < d && d + 1 < |bounds|
    ensures bounds[c] < bounds[c + 1] <= bounds[d] < bounds[d + 1] <= |text|
  {
    ChunkBounds(text, bounds, c);
    ChunkBounds(text, bounds, d);
    assert c + 1 == d || bounds[c + 1] < bounds[d];
  }

  lemma OthersKept(buf: seq<char>, after: seq<char>, text: string, bounds: seq<nat>, d: nat, c: nat)
    requires IsSplit(text, bounds) && d + 1 < |bounds| && c + 1 < |bounds| && |text| < |buf|
    requires StartOk(buf, text, bounds, d) && StartOk(buf, text, bounds, c) && OnlyChunk(buf, after, bounds[d], bounds[d + 1])
    ensures StartOk(after, text, bounds, c)
    ensures c != d && Unmapped(buf, text, bounds, c) ==> Unmapped(after, text, bounds, c)
  {
    ChunkBounds(text, bounds, c);
    if c < d { BoundsOrdered(text, bounds, c, d); }
    if d < c { BoundsOrdered(text, bounds, d, c); }
  }

  lemma WordKept(buf: seq<char>, after: seq<char>, text: string, bounds: seq<nat>, d: nat, c: nat, e: Emit)
    requires IsSplit(text, bounds) && d + 1 < |bounds| && c + 1 < |bounds| && c != d && |text| < |buf|
    requires StartOk(buf, text, bounds, d) && OnlyChunk(buf, after, bounds[d], bounds[d + 1]) && Kept(buf, bounds, c, e)
    ensures Kept(after, bounds, c, e)
  {
    if c < d { BoundsOrdered(text, bounds, c, d); } else { BoundsOrdered(text, bounds, d, c); }
  }

  /** The words of the chunks with the given numbers. */
  ghost function OrderWords(text: string, bounds: seq<nat>, order: seq<nat>): multiset<string>
    requires IsSplit(text, bounds) && forall j :: 0 <= j < |order| ==> order[j] + 1 < |bounds|
  {
    if order == [] then multiset{}
    else OrderWords(text, bounds, order[..|order| - 1]) + multiset(Words(ChunkText(text, bounds, order[|order| - 1])))
  }

  /** An order of the first n chunks: every number below n once. */
  ghost predicate IsOrder(order: seq<nat>, n: nat) {
    && |order| == n && (forall j :: 0 <= j < |order| ==> order[j] < n)
    && (forall c: nat :: c < n ==> c in order)
    && (forall i, j :: 0 <= i < j < |order| ==> order[i] != order[j])
  }

  ghost predicate InRange(order: seq<nat>, n: nat) { forall j :: 0 <= j < |order| ==> order[j] < n }

  lemma {:induction false} OrderWordsMiddle(text: string, bounds: seq<nat>, a: seq<nat>, c: nat, b: seq<nat>)
    requires IsSplit(text, bounds) && InRange(a + [c] + b, |bounds| - 1) && InRange(a + b, |bounds| - 1) && c + 1 < |bounds|
    ensures OrderWords(text, bounds, a + [c] + b) == OrderWords(text, bounds, a + b) + multiset(Words(ChunkText(text, bounds, c)))
    decreases |b|
  {
    if b == [] {
      assert a + [c] + b == a + [c] && a + b == a && (a + [c])[..|a + [c]| - 1] == a;
    } else {
      var rest, last := b[..|b| - 1], b[|b| - 1];
      assert (a + [c] + b)[..|a + [c] + b| - 1] == a + [c] + rest && (a + b)[..|a + b| - 1] == a + rest;
      assert forall j :: 0 <= j < |a + [c] + rest| ==> (a + [c] + rest)[j] == (a + [c] + b)[j];
      assert forall j :: 0 <= j < |a + rest| ==> (a + rest)[j] == (a + b)[j];
      OrderWordsMiddle(text, bounds, a, c, rest);
    }
  }

  lemma TakeLast(order: seq<nat>, n: nat) returns (a: seq<nat>, b: seq<nat>)
    requires n > 0 && IsOrder(order, n)
    ensures order == a + [n - 1] + b && IsOrder(a + b, n - 1)
  {
    var last: nat := n - 1;
    assert last in order;
    var i :| 0 <= i < |order| && order[i] == last;
    a, b := order[..i], order[i + 1..];
    assert order == a + [last] + b;
    RestIsOrder(order, n, i);
  }

  /** Whatever the order, the words are the words of the chunks. */
  lemma {:induction false} AnyOrder(text: string, bounds: seq<nat>, order: seq<nat>, n: nat)
    requires IsSplit(text, bounds) && n < |bounds| && IsOrder(order, n)
    ensures OrderWords(text, bounds, order) == multiset(ChunkWords(text, bounds, n))
    decreases n
  {
    if n > 0 {
      var a, b := TakeLast(order, n);
      OrderWordsMiddle(text, bounds, a, n - 1, b);
      AnyOrder(text, bounds, a + b, n - 1);
      assert multiset(ChunkWords(text, bounds, n)) ==
             multiset(ChunkWords(text, bounds, n - 1)) + multiset(Words(ChunkText(text, bounds, n - 1)));
    }
  }

  lemma RestIsOrder(order: seq<nat>, n: nat, i: nat)
    requires n > 0 && IsOrder(order, n) && i < |order| && order[i] == n - 1
    ensures IsOrder(order[..i] + order[i + 1..], n - 1)
  {
    var rest := order[..i] + order[i + 1..];
    forall j | 0 <= j < |rest| ensures rest[j] < n - 1 { assert rest[j] == order[if j < i then j else j + 1]; }
    forall c: nat | c < n - 1 ensures c in rest {
      assert c in order;
      var j :| 0 <= j < |order| && order[j] == c;
      assert rest[if j < i then j else j - 1] == c;
    }
  }

  /** Before the j-th chunk of the order is mapped. */
  ghost predicate Progress(buf: seq<char>, text: string, bounds: seq<nat>, order: seq<nat>, j: nat, emits: seq<Emit>)
    requires IsSplit(text, bounds) && InRange(order, |bounds| - 1) && j <= |order| && |text| < |buf|
  {
    && multiset(Texts(emits)) == OrderWords(text, bounds, order[..j])
    && (forall c: nat :: c + 1 < |bounds| ==> StartOk(buf, text, bounds, c))
    && (forall c: nat :: c + 1 < |bounds| && c !in order[..j] ==> Unmapped(buf, text, bounds, c))
    && (forall e :: e in emits ==> KeptBySome(buf, bounds, order[..j], e))
  }

  lemma PrefixNext(order: seq<nat>, j: nat, n: nat)
    requires j < |order| && IsOrder(order, n)
    ensures order[j] !in order[..j] && order[..j + 1] == order[..j] + [order[j]] && order[j] < n
  {
  }

  lemma EmitsNext(buf: seq<char>, text: string, bounds: seq<nat>, order: seq<nat>, j: nat, emits: seq<Emit>, new': seq<Emit>)
    requires IsSplit(text, bounds) && j < |order| && IsOrder(order, |bounds| - 1)
    requires multiset(Texts(emits)) == OrderWords(text, bounds, order[..j])
    requires Texts(new') == Words(ChunkText(text, bounds, order[j]))
    ensures multiset(Texts(emits + new')) == OrderWords(text, bounds, order[..j + 1])
  {
    PrefixNext(order, j, |bounds| - 1);
    assert order[..j + 1][..j] == order[..j];
    assert Texts(emits + new') == Texts(emits) + Texts(new');
  }

  /** Map chunk d: its words are kept, and nothing else changes. */
  method MapChunk(ghost text: string, buf: array<char>, bounds: seq<nat>, d: nat) returns (emits: seq<Emit>)
    requires IsSplit(text, bounds) && d + 1 < |bounds| && |text| < buf.Length && bounds[d] < bounds[d + 1] <= |text|
    requires StartOk(buf[..], text, bounds, d)
    modifies buf
    ensures OnlyChunk(old(buf[..]), buf[..], bounds[d], bounds[d + 1])
    ensures Texts(emits) == Words(old(buf[..])[bounds[d]..bounds[d + 1]])
    ensures forall e :: e in emits ==> Kept(buf[..], bounds, d, e)
  {
    ghost var before := buf[..];
    assert before[bounds[d]..bounds[d + 1]] == buf[bounds[d]..bounds[d + 1]];
    emits := Map(buf, bounds[d], bounds[d + 1]);
  }

  /** Map the j-th chunk of the order. */
  method MapNext(ghost text: string, buf: array<char>, bounds: seq<nat>, order: seq<nat>, j: nat, emits: seq<Emit>) returns (more: seq<Emit>)
    requires IsSplit(text, bounds) && |text| < buf.Length && j < |order| && IsOrder(order, |bounds| - 1)
    requires Progress(buf[..], text, bounds, order, j, emits)
    modifies buf
    ensures Progress(buf[..], text, bounds, order, j + 1, more)
  {
    var d := order[j];
    ghost var before := buf[..];
    PrefixNext(order, j, |bounds| - 1);
    UnmappedWords(before, text, bounds, d);
    var new' := MapChunk(text, buf, bounds, d);
    more := emits + new';
    ghost var after := buf[..];
    EmitsNext(after, text, bounds, order, j, emits, new');
    OthersProgress(before, after, text, bounds, order, j, emits);
    forall e | e in more ensures KeptBySome(after, bounds, order[..j + 1], e) {
      if e in new' { assert Kept(after, bounds, d, e) && d in order[..j + 1]; }
    }
  }

  lemma OthersProgress(before: seq<char>, after: seq<char>, text: string, bounds: seq<nat>, order: seq<nat>, j: nat, emits: seq<Emit>)
    requires IsSplit(text, bounds) && |text| < |before| && j < |order| && IsOrder(order, |bounds| - 1)
    requires Progress(before, text, bounds, order, j, emits) && OnlyChunk(before, after, bounds[order[j]], bounds[order[j] + 1])
    ensures forall c: nat :: c + 1 < |bounds| ==> StartOk(after, text, bounds, c)
    ensures forall c: nat :: c + 1 < |bounds| && c !in order[..j + 1] ==> Unmapped(after, text, bounds, c)
    ensures forall e :: e in emits ==> KeptBySome(after, bounds, order[..j + 1], e)
  {
    var d := order[j];
    assert order[..j + 1] == order[..j] + [d];
    forall c: nat | c + 1 < |bounds| ensures StartOk(after, text, bounds, c) { OthersKept(before, after, text, bounds, d, c); }
    forall c: nat | c + 1 < |bounds| && c !in order[..j + 1] ensures Unmapped(after, text, bounds, c) {
      OthersKept(before, after, text, bounds, d, c);
    }
    forall e | e in emits ensures KeptBySome(after, bounds, order[..j + 1], e) {
      assert KeptBySome(before, bounds, order[..j], e);
      var c :| c in order[..j] && c + 1 < |bounds| && Kept(before, bounds, c, e);
      WordKept(before, after, text, bounds, d, c, e);
      assert c in order[..j + 1];
    }
  }

  lemma AllMapped(text: string, buf: seq<char>, bounds: seq<nat>, order: seq<nat>, emits: seq<Emit>)
    requires IsSplit(text, bounds) && |text| < |buf| && IsOrder(order, |bounds| - 1)
    requires Progress(buf, text, bounds, order, |order|, emits)
    ensures multiset(Texts(emits)) == multiset(Words(text))
    ensures forall e :: e in emits ==> Stored(buf, e)
  {
    assert order[..|order|] == order;
    AnyOrder(text, bounds, order, |bounds| - 1);
    SplitKeepsWords(text, bounds, |bounds| - 1);
    assert text[..|text|] == text;
    forall e | e in emits ensures Stored(buf, e) { assert KeptBySome(buf, bounds, order, e); }
  }

  /** Mapping the chunks in any order emits the words of the text, and all of them are still in the
      buffer at the end.  The buffer has room for a zero after the text. */
  method MapAll(ghost text: string, buf: array<char>, bounds: seq<nat>, order: seq<nat>) returns (emits: seq<Emit>)
    requires IsSplit(text, bounds) && |text| < buf.Length && buf[..|text|] == text && IsOrder(order, |bounds| - 1)
    modifies buf
    ensures multiset(Texts(emits)) == multiset(Words(text))
    ensures forall e :: e in emits ==> Stored(buf[..], e)
  {
    emits := [];
    StartsUnmapped(text, buf[..], bounds);
    for j := 0 to |order|
      invariant Progress(buf[..], text, bounds, order, j, emits)
    {
      emits := MapNext(text, buf, bounds, order, j, emits);
    }
    AllMapped(text, buf[..], bounds, order, emits);
  }

  lemma StartsUnmapped(text: string, buf: seq<char>, bounds: seq<nat>)
    requires IsSplit(text, bounds) && |text| < |buf| && buf[..|text|] == text
    ensures forall c: nat :: c + 1 < |bounds| ==> StartOk(buf, text, bounds, c) && Unmapped(buf, text, bounds, c)
  {
    forall c: nat | c + 1 < |bounds| ensures StartOk(buf, text, bounds, c) && Unmapped(buf, text, bounds, c) {
      ChunkBounds(text, bounds, c);
      assert forall i :: 0 <= i < |text| ==> buf[i] == buf[..|text|][i];
    }
  }
}
