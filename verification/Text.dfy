// White space and line handling shared by the settings vocabulary and the app
// lists: unicode.IsSpace, strings.TrimSpace, strings.Split and strings.Join on
// one separator character.
module Text {

  /** unicode.IsSpace. */
  predicate IsSpace(c: char) {
    || '\t' <= c <= '\r'
    || c == ' ' || c == '\U{0085}' || c == '\U{00A0}' || c == '\U{1680}'
    || '\U{2000}' <= c <= '\U{200A}'
    || c == '\U{2028}' || c == '\U{2029}' || c == '\U{202F}'
    || c == '\U{205F}' || c == '\U{3000}'
  }

  function TrimLeft(s: string): (r: string)
    ensures |r| <= |s| && s[|s| - |r|..] == r
    ensures r == "" || !IsSpace(r[0])
  {
    if s != "" && IsSpace(s[0]) then TrimLeft(s[1..]) else s
  }

  function TrimRight(s: string): (r: string)
    ensures |r| <= |s| && s[..|r|] == r
    ensures r == "" || !IsSpace(r[|r| - 1])
  {
    if s != "" && IsSpace(s[|s| - 1]) then TrimRight(s[..|s| - 1]) else s
  }

  /** strings.TrimSpace. */
  function Trim(s: string): (r: string)
    ensures Trimmed(r)
    ensures Trimmed(s) ==> r == s
  {
    TrimRight(TrimLeft(s))
  }

  /** Neither end of the text is white space. */
  predicate Trimmed(s: string) {
    s == "" || (!IsSpace(s[0]) && !IsSpace(s[|s| - 1]))
  }

  /** Trimming only drops characters. */
  lemma TrimKeeps(s: string, c: char)
    requires c in Trim(s)
    ensures c in s
  {
    var t := TrimLeft(s);
    assert Trim(s) == t[..|Trim(s)|];
    assert t == s[|s| - |t|..];
  }

  /** The safe identifier of the whole program: a lowercase slug of at most 63
      characters that does not start with a dash. */
  predicate Slug(s: string) {
    1 <= |s| <= 63 && s[0] != '-' && forall i :: 0 <= i < |s| ==> SlugChar(s[i])
  }

  predicate SlugChar(c: char) {
    'a' <= c <= 'z' || '0' <= c <= '9' || c == '-'
  }

  // ---- Lines ----------------------------------------------------------

  function IndexOf(s: string, c: char): (i: nat)
    ensures i <= |s| && c !in s[..i] && (i < |s| ==> s[i] == c)
  {
    if s == "" || s[0] == c then 0
    else
      var i := 1 + IndexOf(s[1..], c);
      assert s[..i] == [s[0]] + s[1..][..i - 1];
      i
  }

  /** strings.Split on one character. */
  function Split(s: string, c: char): (parts: seq<string>)
    ensures parts != [] && forall i :: 0 <= i < |parts| ==> c !in parts[i]
    decreases |s|
  {
    var i := IndexOf(s, c);
    if i == |s| then
      assert s[..i] == s;
      [s]
    else [s[..i]] + Split(s[i + 1..], c)
  }

  /** strings.Join. */
  function Join(parts: seq<string>, c: char): string {
    if parts == [] then ""
    else if |parts| == 1 then parts[0]
    else parts[0] + [c] + Join(parts[1..], c)
  }

  lemma PrefixHolds(s: string, j: nat)
    requires j < |s|
    ensures forall i :: j < i <= |s| ==> s[j] in s[..i]
  {
    forall i | j < i <= |s| ensures s[j] in s[..i] {
      assert s[..i][j] == s[j];
    }
  }

  lemma FirstAt(s: string, c: char, i: nat)
    requires i <= |s| && c !in s[..i] && (i < |s| ==> s[i] == c)
    ensures IndexOf(s, c) == i
  {
    forall j: nat | j < |s| ensures forall k :: j < k <= |s| ==> s[j] in s[..k] {
      PrefixHolds(s, j);
    }
  }

  /** Splitting undoes joining when no part holds the separator. */
  lemma {:induction false} SplitJoin(parts: seq<string>, c: char)
    requires parts != [] && forall i :: 0 <= i < |parts| ==> c !in parts[i]
    ensures Split(Join(parts, c), c) == parts
  {
    var s := Join(parts, c);
    if |parts| == 1 {
      assert s[..|s|] == s;
      FirstAt(s, c, |s|);
    } else {
      var i := |parts[0]|;
      assert s[..i] == parts[0] && s[i] == c && s[i + 1..] == Join(parts[1..], c);
      FirstAt(s, c, i);
      SplitJoin(parts[1..], c);
    }
  }

  /** What splitting every part on its own gives. */
  function Pieces(parts: seq<string>, c: char): seq<string> {
    if parts == [] then [] else Split(parts[0], c) + Pieces(parts[1..], c)
  }

  lemma {:induction false} SplitAppend(s: string, t: string, c: char)
    ensures Split(s + [c] + t, c) == Split(s, c) + Split(t, c)
    decreases |s|
  {
    var i := IndexOf(s, c);
    hide Split, IndexOf;
    SplitAtFirst(s, t, c, i);
    if i < |s| {
      SplitAppend(s[i + 1..], t, c);
      SplitAt(s, c, i);
      assert [s[..i]] + (Split(s[i + 1..], c) + Split(t, c)) == [s[..i]] + Split(s[i + 1..], c) + Split(t, c);
    } else {
      SplitWhole(s, c);
    }
  }

  lemma SplitAtFirst(s: string, t: string, c: char, i: nat)
    requires i <= |s| && c !in s[..i] && (i < |s| ==> s[i] == c)
    ensures Split(s + [c] + t, c) == [s[..i]] + Split(if i < |s| then s[i + 1..] + [c] + t else t, c)
  {
    hide Split, IndexOf;
    var all := s + [c] + t;
    assert all[..i] == s[..i] && all[i] == c;
    SplitAt(all, c, i);
    assert all[i + 1..] == if i < |s| then s[i + 1..] + [c] + t else t;
  }

  lemma SplitWhole(s: string, c: char)
    requires c !in s[..|s|]
    ensures Split(s, c) == [s] && s[..|s|] == s
  {
    FirstAt(s, c, |s|);
  }

  lemma SplitAt(s: string, c: char, i: nat)
    requires i < |s| && c !in s[..i] && s[i] == c
    ensures Split(s, c) == [s[..i]] + Split(s[i + 1..], c)
  {
    FirstAt(s, c, i);
  }

  /** Splitting a joined text cuts every part at its own separators too. */
  lemma {:induction false} SplitJoinPieces(parts: seq<string>, c: char)
    requires parts != []
    ensures Split(Join(parts, c), c) == Pieces(parts, c)
  {
    if |parts| > 1 {
      SplitAppend(parts[0], Join(parts[1..], c), c);
      SplitJoinPieces(parts[1..], c);
    } else {
      assert Pieces(parts[1..], c) == [];
    }
  }

  lemma {:induction false} JoinSplit(s: string, c: char)
    ensures Join(Split(s, c), c) == s
    decreases |s|
  {
    var i := IndexOf(s, c);
    if i < |s| {
      JoinSplit(s[i + 1..], c);
      assert s == s[..i] + [c] + s[i + 1..];
    } else {
      assert s[..i] == s;
    }
  }

  /** Two lists join to the same text exactly when they have the same pieces. */
  lemma SameJoin(a: seq<string>, b: seq<string>, c: char)
    requires a != [] && b != []
    ensures Join(a, c) == Join(b, c) <==> Pieces(a, c) == Pieces(b, c)
  {
    SplitJoinPieces(a, c);
    SplitJoinPieces(b, c);
    JoinSplit(Join(a, c), c);
    JoinSplit(Join(b, c), c);
  }

  lemma PiecesOfPlain(parts: seq<string>, c: char)
    requires parts != [] && forall i :: 0 <= i < |parts| ==> c !in parts[i]
    ensures Pieces(parts, c) == parts
  {
    SplitJoinPieces(parts, c);
    SplitJoin(parts, c);
  }

  predicate OccursAt(s: string, part: string, i: nat) {
    i + |part| <= |s| && s[i..i + |part|] == part
  }

  /** strings.Contains. */
  predicate Contains(s: string, part: string) {
    exists i: nat :: i <= |s| && OccursAt(s, part, i)
  }
}
