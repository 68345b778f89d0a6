/** The few operations of Go's `strings` package that the modelled code calls. */
module Text {

  /** The white space that strings.TrimSpace removes. */
  predicate IsSpace(c: char) {
    || '\t' <= c <= '\r' || c == ' '
    || c == 0x85 as char || c == 0xA0 as char || c == 0x1680 as char
    || 0x2000 as char <= c <= 0x200A as char
    || c == 0x2028 as char || c == 0x2029 as char || c == 0x202F as char || c == 0x205F as char
    || c == 0x3000 as char
  }

  function TrimLeft(s: string): (r: string)
    ensures r == "" || !IsSpace(r[0])
    ensures |r| <= |s| && s[|s| - |r|..] == r
  {
    if s == "" then "" else if IsSpace(s[0]) then TrimLeft(s[1..]) else s
  }

  function TrimRight(s: string): (r: string)
    ensures r == "" || !IsSpace(r[|r| - 1])
    ensures r <= s
  {
    if s == "" then "" else if IsSpace(s[|s| - 1]) then TrimRight(s[..|s| - 1]) else s
  }

  /** strings.TrimSpace */
  function Trim(s: string): string {
    TrimRight(TrimLeft(s))
  }

  lemma TrimLeftDrops(s: string)
    ensures forall i | 0 <= i < |s| - |TrimLeft(s)| :: IsSpace(s[i])
  {
    if s != "" && IsSpace(s[0]) {
      TrimLeftDrops(s[1..]);
    }
  }

  lemma TrimRightDrops(s: string)
    ensures forall i | |TrimRight(s)| <= i < |s| :: IsSpace(s[i])
  {
    if s != "" && IsSpace(s[|s| - 1]) {
      TrimRightDrops(s[..|s| - 1]);
    }
  }

  /** Trimming takes away white space at the ends and nothing else. */
  lemma TrimDropsSpace(s: string) returns (from: nat)
    ensures from + |Trim(s)| <= |s| && s[from..][..|Trim(s)|] == Trim(s)
    ensures forall i | 0 <= i < from || from + |Trim(s)| <= i < |s| :: IsSpace(s[i])
  {
    var l := TrimLeft(s);
    from := |s| - |l|;
    TrimLeftDrops(s);
    TrimRightDrops(l);
    forall i | from + |Trim(s)| <= i < |s| ensures IsSpace(s[i]) {
      assert s[i] == l[i - from];
    }
  }

  /** Of the ASCII characters, tab, line feed, vertical tab, form feed, carriage return and blank are white space. */
  lemma AsciiSpace(c: char)
    requires c < 128 as char
    ensures IsSpace(c) <==> c as int in {9, 10, 11, 12, 13, 32}
  {
  }

  predicate Trimmed(s: string) {
    s == "" || (!IsSpace(s[0]) && !IsSpace(s[|s| - 1]))
  }

  lemma TrimIsTrimmed(s: string)
    ensures Trimmed(Trim(s))
    ensures Trimmed(s) ==> Trim(s) == s
    ensures forall c | c in Trim(s) :: c in s
  {
    var l := TrimLeft(s);
    assert forall c | c in l :: c in s;
    assert forall c | c in TrimRight(l) :: c in l;
  }

  /** strings.Trim(s, string(c)) for a single character */
  function TrimChar(s: string, c: char): (r: string)
    ensures r == "" || (r[0] != c && r[|r| - 1] != c)
    ensures s == "" || s[0] == c || s[|s| - 1] == c || r == s
    decreases |s|
  {
    if s == "" then ""
    else if s[0] == c then TrimChar(s[1..], c)
    else if s[|s| - 1] == c then TrimChar(s[..|s| - 1], c)
    else s
  }

  /** strings.Split(s, string(sep)): always at least one piece */
  function Split(s: string, sep: char): (r: seq<string>)
    ensures r != []
    ensures forall p | p in r :: sep !in p
  {
    if s == "" then [""]
    else if s[0] == sep then [""] + Split(s[1..], sep)
    else
      var rest := Split(s[1..], sep);
      [[s[0]] + rest[0]] + rest[1..]
  }

  /** strings.Join(parts, string(sep)) */
  function Join(parts: seq<string>, sep: char): string {
    if parts == [] then ""
    else if |parts| == 1 then parts[0]
    else parts[0] + [sep] + Join(parts[1..], sep)
  }

  lemma {:induction false} SplitAtSeparator(head: string, tail: string, sep: char)
    requires sep !in head
    ensures Split(head, sep) == [head]
    ensures Split(head + [sep] + tail, sep) == [head] + Split(tail, sep)
  {
    if head == "" {
      assert ([sep] + tail)[1..] == tail;
      assert head + [sep] + tail == [sep] + tail;
    } else {
      SplitAtSeparator(head[1..], tail, sep);
      assert (head + [sep] + tail)[1..] == head[1..] + [sep] + tail;
      assert [head[0]] + head[1..] == head;
    }
  }

  /** Splitting undoes joining, for a non-empty list of parts that do not contain the separator. */
  lemma {:induction false} SplitJoin(parts: seq<string>, sep: char)
    requires parts != [] && forall p | p in parts :: sep !in p
    ensures Split(Join(parts, sep), sep) == parts
  {
    if |parts| == 1 {
      SplitAtSeparator(parts[0], "", sep);
    } else {
      SplitJoin(parts[1..], sep);
      SplitAtSeparator(parts[0], Join(parts[1..], sep), sep);
      assert [parts[0]] + parts[1..] == parts;
    }
  }

  /** Joining undoes splitting, for every text. */
  lemma {:induction false} JoinSplit(s: string, sep: char)
    ensures Join(Split(s, sep), sep) == s
  {
    if s != "" {
      JoinSplit(s[1..], sep);
      assert s == [s[0]] + s[1..];
    }
  }

  /** A separator splits what lies before it and what lies behind it on their own. */
  lemma {:induction false} SplitAppend(a: string, b: string, sep: char)
    ensures Split(a + [sep] + b, sep) == Split(a, sep) + Split(b, sep)
  {
    var s := a + [sep] + b;
    if a == "" {
      assert s[1..] == b;
    } else {
      SplitAppend(a[1..], b, sep);
      assert s[0] == a[0] && s[1..] == a[1..] + [sep] + b;
      SplitTail(Split(a[1..], sep), Split(b, sep), a[0]);
    }
  }

  lemma SplitTail(head: seq<string>, tail: seq<string>, c: char)
    requires head != []
    ensures [[c] + (head + tail)[0]] + (head + tail)[1..] == [[c] + head[0]] + head[1..] + tail
    ensures [""] + (head + tail) == [""] + head + tail
  {
  }

  /** The non-empty pieces of a joined text are those of its parts, whatever the parts contain. */
  lemma {:induction false} JoinPieces(parts: seq<string>, sep: char, x: string)
    requires x != ""
    ensures x in Split(Join(parts, sep), sep) <==> exists p :: p in parts && x in Split(p, sep)
  {
    if |parts| == 1 {
      assert parts[0] in parts;
    } else if |parts| > 1 {
      JoinPieces(parts[1..], sep, x);
      SplitAppend(parts[0], Join(parts[1..], sep), sep);
      assert forall p :: p in parts <==> p == parts[0] || p in parts[1..];
    }
  }

  /** Trimming separators off the ends takes away empty pieces only. */
  lemma {:induction false} TrimCharPieces(s: string, c: char, x: string)
    requires x != ""
    ensures x in Split(TrimChar(s, c), c) <==> x in Split(s, c)
    decreases |s|
  {
    if s != "" && s[0] == c {
      TrimCharPieces(s[1..], c, x);
    } else if s != "" && s[|s| - 1] == c {
      var init := s[..|s| - 1];
      TrimCharPieces(init, c, x);
      SplitAppend(init, "", c);
      assert s == init + [c] + "";
    }
  }

  predicate HasPrefix(s: string, prefix: string) {
    prefix <= s
  }

  predicate HasSuffix(s: string, suffix: string) {
    |suffix| <= |s| && s[|s| - |suffix|..] == suffix
  }

  predicate Contains(s: string, part: string) {
    exists i | 0 <= i <= |s| :: part <= s[i..]
  }
}
