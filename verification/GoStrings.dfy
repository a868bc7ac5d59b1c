/** The parts of Go's `strings` and `sort` packages that the models use. */
module GoStrings {

  // ---- TrimSpace ----

  /** unicode.IsSpace */
  predicate IsSpace(c: char) {
    var n := c as int;
    || 0x09 <= n <= 0x0D || n == 0x20 || n == 0x85 || n == 0xA0 || n == 0x1680
    || 0x2000 <= n <= 0x200A || n == 0x2028 || n == 0x2029 || n == 0x202F || n == 0x205F || n == 0x3000
  }

  function TrimLeft(s: string): string {
    if s != [] && IsSpace(s[0]) then TrimLeft(s[1..]) else s
  }

  function TrimRight(s: string): string {
    if s != [] && IsSpace(s[|s| - 1]) then TrimRight(s[..|s| - 1]) else s
  }

  function TrimSpace(s: string): string {
    TrimRight(TrimLeft(s))
  }

  /** Neither end is white space. */
  predicate IsTrimmed(s: string) {
    s != [] ==> !IsSpace(s[0]) && !IsSpace(s[|s| - 1])
  }

  lemma {:induction false} TrimLeftProps(s: string)
    ensures TrimLeft(s) != [] ==> !IsSpace(TrimLeft(s)[0])
    ensures forall c :: c in TrimLeft(s) ==> c in s
  {
    if s != [] && IsSpace(s[0]) {
      TrimLeftProps(s[1..]);
      assert forall c :: c in s[1..] ==> c in s;
    }
  }

  lemma {:induction false} TrimRightProps(s: string)
    ensures TrimRight(s) != [] ==> !IsSpace(TrimRight(s)[|TrimRight(s)| - 1])
    ensures TrimRight(s) <= s
  {
    if s != [] && IsSpace(s[|s| - 1]) {
      TrimRightProps(s[..|s| - 1]);
    }
  }

  lemma TrimSpaceTrims(s: string)
    ensures IsTrimmed(TrimSpace(s))
    ensures forall c :: c in TrimSpace(s) ==> c in s
    ensures IsTrimmed(s) <==> TrimSpace(s) == s
  {
    TrimLeftProps(s);
    TrimRightProps(TrimLeft(s));
    var l := TrimLeft(s);
    assert forall c :: c in TrimRight(l) ==> c in l;
    if TrimRight(l) != [] {
      assert TrimRight(l)[0] == l[0];
    }
  }

  predicate AllSpace(s: string) {
    forall i :: 0 <= i < |s| ==> IsSpace(s[i])
  }

  lemma {:induction false} TrimLeftPadded(pre: string, s: string)
    requires AllSpace(pre) && (s != [] ==> !IsSpace(s[0]))
    ensures TrimLeft(pre + s) == s
  {
    if pre == [] {
      assert pre + s == s;
    } else {
      assert (pre + s)[1..] == pre[1..] + s;
      TrimLeftPadded(pre[1..], s);
    }
  }

  lemma {:induction false} TrimRightPadded(s: string, post: string)
    requires AllSpace(post) && (s != [] ==> !IsSpace(s[|s| - 1]))
    ensures TrimRight(s + post) == s
  {
    if post == [] {
      assert s + post == s;
    } else {
      assert (s + post)[..|s + post| - 1] == s + post[..|post| - 1];
      TrimRightPadded(s, post[..|post| - 1]);
    }
  }

  /** White space around a text is what goes, and all that goes. */
  lemma TrimSpacePadded(pre: string, s: string, post: string)
    requires AllSpace(pre) && AllSpace(post) && IsTrimmed(s)
    ensures TrimSpace(pre + s + post) == s
  {
    if s == [] {
      TrimLeftPadded(pre + post, []);
      assert pre + s + post == pre + post + [];
    } else {
      TrimLeftPadded(pre, s + post);
      assert pre + s + post == pre + (s + post);
      TrimRightPadded(s, post);
    }
  }

  predicate HasPrefix(s: string, prefix: string) {
    prefix <= s
  }

  // ---- Split and Join ----

  /** strings.Split on a one-character separator. */
  function Split(s: string, sep: char): (parts: seq<string>)
    ensures |parts| >= 1
  {
    if s == [] then [[]]
    else
      var rest := Split(s[1..], sep);
      if s[0] == sep then [[]] + rest else [[s[0]] + rest[0]] + rest[1..]
  }

  function Join(parts: seq<string>, sep: string): string {
    if parts == [] then []
    else if |parts| == 1 then parts[0]
    else parts[0] + sep + Join(parts[1..], sep)
  }

  lemma {:induction false} SplitPiecesLackSeparator(s: string, sep: char)
    ensures forall piece :: piece in Split(s, sep) ==> sep !in piece
    ensures forall piece, c :: piece in Split(s, sep) && c in piece ==> c in s
  {
    if s == [] {
    } else {
      SplitPiecesLackSeparator(s[1..], sep);
      var rest := Split(s[1..], sep);
      assert rest == [rest[0]] + rest[1..];
      assert forall c :: c in s[1..] ==> c in s;
    }
  }

  /** A first piece without the separator splits off in front. */
  lemma {:induction false} SplitCons(w: string, rest: string, sep: char)
    requires sep !in w
    ensures Split(w + [sep] + rest, sep) == [w] + Split(rest, sep)
  {
    var s := w + [sep] + rest;
    if w == [] {
      assert s[1..] == rest;
    } else {
      assert w[0] in w && forall c :: c in w[1..] ==> c in w;
      assert s[1..] == w[1..] + [sep] + rest;
      SplitCons(w[1..], rest, sep);
      assert [w[0]] + w[1..] == w;
    }
  }

  lemma {:induction false} SplitOne(w: string, sep: char)
    requires sep !in w
    ensures Split(w, sep) == [w]
  {
    if w == [] {
    } else {
      assert w[0] in w && forall c :: c in w[1..] ==> c in w;
      SplitOne(w[1..], sep);
      assert [w[0]] + w[1..] == w;
    }
  }

  lemma {:induction false} SplitJoin(parts: seq<string>, sep: char)
    requires parts != [] && forall w :: w in parts ==> sep !in w
    ensures Split(Join(parts, [sep]), sep) == parts
  {
    if |parts| == 1 {
      SplitOne(parts[0], sep);
      assert parts == [parts[0]];
    } else {
      assert parts[0] in parts && forall w :: w in parts[1..] ==> w in parts;
      SplitJoin(parts[1..], sep);
      SplitCons(parts[0], Join(parts[1..], [sep]), sep);
      assert parts == [parts[0]] + parts[1..];
    }
  }

  // ---- Words ----

  predicate IsWord(s: string) {
    s != "" && IsTrimmed(s)
  }

  /** The trimmed parts, blanks dropped. */
  function Words(parts: seq<string>): seq<string> {
    if parts == [] then []
    else
      var init, last := Words(parts[..|parts| - 1]), TrimSpace(parts[|parts| - 1]);
      if last != "" then init + [last] else init
  }

  /** Part by part, in order. */
  lemma {:induction false} WordsConcat(a: seq<string>, b: seq<string>)
    ensures Words(a + b) == Words(a) + Words(b)
  {
    if b == [] {
      assert a + b == a;
    } else {
      assert (a + b)[..|a + b| - 1] == a + b[..|b| - 1];
      WordsConcat(a, b[..|b| - 1]);
    }
  }

  /** A part is a word with white space around it, or blank. */
  lemma WordsOne(pre: string, w: string, post: string)
    requires AllSpace(pre) && AllSpace(post) && IsTrimmed(w)
    ensures Words([pre + w + post]) == if w == "" then [] else [w]
  {
    TrimSpacePadded(pre, w, post);
    assert [pre + w + post][..0] == [];
  }

  lemma {:induction false} WordsAreWords(parts: seq<string>)
    ensures forall s :: s in Words(parts) ==> IsWord(s)
    ensures forall s, c :: s in Words(parts) && c in s ==> exists i :: 0 <= i < |parts| && c in parts[i]
  {
    if parts == [] {
    } else {
      WordsAreWords(parts[..|parts| - 1]);
      TrimSpaceTrims(parts[|parts| - 1]);
    }
  }

  lemma {:induction false} WordsOfWords(words: seq<string>)
    requires forall i :: 0 <= i < |words| ==> IsWord(words[i])
    ensures Words(words) == words
  {
    if words == [] {
    } else {
      var init, last := words[..|words| - 1], words[|words| - 1];
      WordsOfWords(init);
      assert IsWord(last);
      TrimSpaceTrims(last);
      assert words == init + [last];
    }
  }

  // ---- Ordering and sorting ----

  /** Lexicographic order, as sort.Strings compares. */
  predicate StringLe(a: string, b: string) {
    a == [] || (b != [] && (a[0] < b[0] || (a[0] == b[0] && StringLe(a[1..], b[1..]))))
  }

  lemma {:induction false} StringLeTotal(a: string, b: string)
    ensures StringLe(a, b) || StringLe(b, a)
    ensures StringLe(a, b) && StringLe(b, a) ==> a == b
  {
    if a != [] && b != [] {
      StringLeTotal(a[1..], b[1..]);
      assert a == [a[0]] + a[1..] && b == [b[0]] + b[1..];
    }
  }

  lemma {:induction false} StringLeTransitive(a: string, b: string, c: string)
    requires StringLe(a, b) && StringLe(b, c)
    ensures StringLe(a, c)
  {
    if a != [] && b != [] && c != [] && a[0] == b[0] == c[0] {
      StringLeTransitive(a[1..], b[1..], c[1..]);
    }
  }

  ghost predicate Sorted(s: seq<string>) {
    forall i, j :: 0 <= i < j < |s| ==> StringLe(s[i], s[j])
  }

  function Insert(x: string, s: seq<string>): seq<string> {
    if s == [] then [x] else if StringLe(x, s[0]) then [x] + s else [s[0]] + Insert(x, s[1..])
  }

  /** sort.Strings */
  function SortStrings(s: seq<string>): seq<string> {
    if s == [] then [] else Insert(s[0], SortStrings(s[1..]))
  }

  lemma {:induction false} InsertSorts(x: string, s: seq<string>)
    requires Sorted(s)
    ensures Sorted(Insert(x, s)) && multiset(Insert(x, s)) == multiset(s) + multiset{x}
  {
    if s == [] {
    } else if StringLe(x, s[0]) {
      forall j | 0 <= j < |s|
        ensures StringLe(x, s[j])
      {
        if j > 0 {
          StringLeTransitive(x, s[0], s[j]);
        }
      }
    } else {
      InsertSorts(x, s[1..]);
      assert s == [s[0]] + s[1..];
      var tail := Insert(x, s[1..]);
      StringLeTotal(x, s[0]);
      forall j | 0 <= j < |tail|
        ensures StringLe(s[0], tail[j])
      {
        assert tail[j] in multiset(tail);
        assert tail[j] == x || tail[j] in multiset(s[1..]);
      }
    }
  }

  lemma {:induction false} SortStringsSorts(s: seq<string>)
    ensures Sorted(SortStrings(s)) && multiset(SortStrings(s)) == multiset(s)
  {
    if s == [] {
    } else {
      SortStringsSorts(s[1..]);
      InsertSorts(s[0], SortStrings(s[1..]));
      assert s == [s[0]] + s[1..];
    }
  }

  lemma HeadIsLeast(a: seq<string>, x: string)
    requires a != [] && Sorted(a) && x in multiset(a)
    ensures StringLe(a[0], x)
  {
    var i :| 0 <= i < |a| && a[i] == x;
    StringLeTotal(x, x);
  }

  lemma MultisetTail(a: seq<string>)
    requires a != []
    ensures multiset(a[1..]) == multiset(a) - multiset{a[0]} && a[0] in multiset(a)
  {
    assert a == [a[0]] + a[1..];
  }

  lemma SortedTail(a: seq<string>)
    requires a != [] && Sorted(a)
    ensures Sorted(a[1..])
  {
    hide StringLe;
  }

  /** Two sorted lists with the same elements are the same list. */
  lemma {:induction false} SortedIsUnique(a: seq<string>, b: seq<string>)
    requires Sorted(a) && Sorted(b) && multiset(a) == multiset(b)
    ensures a == b
  {
    hide Sorted, StringLe;
    assert |multiset(a)| == |a| && |multiset(b)| == |b|;
    if a == [] {
    } else {
      SortedTail(a);
      SortedTail(b);
      MultisetTail(a);
      MultisetTail(b);
      HeadIsLeast(a, b[0]);
      HeadIsLeast(b, a[0]);
      StringLeTotal(a[0], b[0]);
      SortedIsUnique(a[1..], b[1..]);
      assert a == [a[0]] + a[1..] && b == [b[0]] + b[1..];
    }
  }

  ghost predicate NoDuplicates(s: seq<string>) {
    forall i, j :: 0 <= i < j < |s| ==> s[i] != s[j]
  }
}
