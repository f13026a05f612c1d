/**
 Avatar helpers: the two `getInitials` variants found in the client and the
 user-colour hash. The thread page and the collaborative editor split a
 trimmed name on whitespace runs and take the first and last word; the
 sharing dialog, the friend selector and the invitation page split on single
 spaces and keep the first two initials. The colour is picked from a palette
 by a 32-bit string hash.
 */
module Avatar {
  import opened Strings
  import opened Seqs

  /** `w.charAt(0)`, which is "" for an empty word. */
  function CharAt0(w: string): (r: string)
    ensures |r| <= 1
    ensures w != "" ==> r == [w[0]]
    ensures w == "" ==> r == ""
  {
    if w == "" then "" else [w[0]]
  }

  /** `getInitials` of the thread page and the collaborative editor. */
  function WordInitials(name: string): (r: string)
    ensures |r| <= 2
    ensures name == "" ==> r == "?"
    ensures name != "" && IsBlank(name) ==> r == ""
    ensures forall i :: 0 <= i < |r| ==> !('a' <= r[i] <= 'z')
  {
    if name == "" then "?"
    else
      var words := Words(name);
      if |words| == 1 then Upper(CharAt0(words[0]))
      else Upper(CharAt0(words[0]) + CharAt0(words[|words| - 1]))
  }

  /** A name that is not blank yields the upper-cased first letters of its first and last words. */
  lemma WordInitialsOfWords(name: string)
    requires !IsBlank(name)
    ensures var ws := Words(name);
      && (|ws| == 1 ==> WordInitials(name) == [UpperChar(ws[0][0])])
      && (|ws| >= 2 ==> WordInitials(name) == [UpperChar(ws[0][0]), UpperChar(ws[|ws| - 1][0])])
  {
    var ws := Words(name);
    WordsNonEmpty(name);
    assert name != "";
    if |ws| == 1 {
      assert CharAt0(ws[0]) == [ws[0][0]];
    } else {
      var first, last := ws[0], ws[|ws| - 1];
      assert |first| > 0 && |last| > 0;
      assert CharAt0(first) + CharAt0(last) == [first[0], last[0]];
    }
  }

  /** The words of a non-blank name are non-empty and free of whitespace. */
  lemma WordsNonEmpty(name: string)
    requires !IsBlank(name)
    ensures forall i :: 0 <= i < |Words(name)| ==> |Words(name)[i]| > 0
    ensures forall i, j :: 0 <= i < |Words(name)| && 0 <= j < |Words(name)[i]| ==> !IsSpace(Words(name)[i][j])
  {
    TrimEmptyIffBlank(name);
  }

  /** Words written out with single spaces read back as the same words. */
  lemma {:induction false} WordsOfSpaced(ws: seq<string>)
    requires |ws| >= 1
    requires forall i :: 0 <= i < |ws| ==> |ws[i]| > 0
    requires forall i, j :: 0 <= i < |ws| && 0 <= j < |ws[i]| ==> !IsSpace(ws[i][j])
    ensures Words(Join(ws, " ")) == ws
  {
    var s := Join(ws, " ");
    JoinSpacedEnds(ws);
    assert TrimStart(s) == s;
    assert TrimEnd(s) == s;
    TokensOfSpaced(ws);
  }

  /** A single-space join of non-empty, whitespace-free words starts and ends with a non-space. */
  lemma {:induction false} JoinSpacedEnds(ws: seq<string>)
    requires |ws| >= 1
    requires forall i :: 0 <= i < |ws| ==> |ws[i]| > 0
    requires forall i, j :: 0 <= i < |ws| && 0 <= j < |ws[i]| ==> !IsSpace(ws[i][j])
    ensures var s := Join(ws, " "); |s| > 0 && s[0] == ws[0][0] && s[|s| - 1] == ws[|ws| - 1][|ws[|ws| - 1]| - 1]
    decreases |ws|
  {
    if |ws| > 1 {
      var tail := ws[1..];
      JoinSpacedEnds(tail);
      var rest := Join(tail, " ");
      var s := Join(ws, " ");
      assert s == ws[0] + " " + rest;
      assert s[0] == ws[0][0];
      assert s[|s| - 1] == rest[|rest| - 1];
      assert tail[|tail| - 1] == ws[|ws| - 1];
    }
  }

  /** The whitespace runs of a single-space join are the joined words. */
  lemma {:induction false} TokensOfSpaced(ws: seq<string>)
    requires |ws| >= 1
    requires forall i :: 0 <= i < |ws| ==> |ws[i]| > 0
    requires forall i, j :: 0 <= i < |ws| && 0 <= j < |ws[i]| ==> !IsSpace(ws[i][j])
    ensures Tokens(Join(ws, " ")) == ws
    decreases |ws|
  {
    var w := ws[0];
    if |ws| == 1 {
      RunOfWord(w, "");
      assert w + "" == w;
      assert w[|w|..] == "";
    } else {
      var rest := Join(ws[1..], " ");
      var s := w + " " + rest;
      assert Join(ws, " ") == w + (" " + rest);
      RunOfWord(w, " " + rest);
      assert s[|w|..] == " " + rest;
      assert Tokens(" " + rest) == Tokens(rest) by {
        assert (" " + rest)[1..] == rest;
      }
      TokensOfSpaced(ws[1..]);
    }
  }

  /** The run at the front of `w + tail` is `w` when `tail` is empty or starts with whitespace. */
  lemma {:induction false} RunOfWord(w: string, tail: string)
    requires |w| > 0 && forall j :: 0 <= j < |w| ==> !IsSpace(w[j])
    requires tail == "" || IsSpace(tail[0])
    ensures Run(w + tail) == w
    decreases |w|
  {
    if |w| > 1 {
      assert (w + tail)[1..] == w[1..] + tail;
      RunOfWord(w[1..], tail);
    } else {
      assert (w + tail)[1..] == tail;
    }
  }

  /** A name written as single-spaced words has the initials of its first and last word. */
  lemma WordInitialsOfSpaced(ws: seq<string>)
    requires |ws| >= 1
    requires forall i :: 0 <= i < |ws| ==> |ws[i]| > 0
    requires forall i, j :: 0 <= i < |ws| && 0 <= j < |ws[i]| ==> !IsSpace(ws[i][j])
    ensures |ws| == 1 ==> WordInitials(Join(ws, " ")) == [UpperChar(ws[0][0])]
    ensures |ws| >= 2 ==> WordInitials(Join(ws, " ")) == [UpperChar(ws[0][0]), UpperChar(ws[|ws| - 1][0])]
  {
    WordsOfSpaced(ws);
    InitialsOfKnownWords(Join(ws, " "), ws);
  }

  /** Initials of a name whose words are known. */
  lemma InitialsOfKnownWords(name: string, ws: seq<string>)
    requires Words(name) == ws && ws[0] != ""
    ensures |ws| == 1 ==> WordInitials(name) == [UpperChar(ws[0][0])]
    ensures |ws| >= 2 ==> WordInitials(name) == [UpperChar(ws[0][0]), UpperChar(ws[|ws| - 1][0])]
  {
    assert !IsBlank(name);
    WordInitialsOfWords(name);
  }

  /** The non-empty pieces of a split, in order. */
  function NonEmpty(parts: seq<string>): (r: seq<string>)
    ensures forall i :: 0 <= i < |r| ==> |r[i]| > 0
  {
    Keep(parts, (w: string) => w != "")
  }

  /** `parts.map(n => n[0]).join("")`: an empty piece contributes nothing. */
  function FirstChars(parts: seq<string>): (r: string)
    ensures |r| == |NonEmpty(parts)|
    ensures forall i :: 0 <= i < |r| ==> r[i] == NonEmpty(parts)[i][0]
  {
    if parts == [] then ""
    else CharAt0(parts[0]) + FirstChars(parts[1..])
  }

  /** `getInitials` of the sharing dialog, the friend selector and the invitation page. */
  function SpaceInitials(name: string): (r: string)
    ensures |r| <= 2
    ensures var pieces := NonEmpty(SplitOn(name, ' '));
      && |r| == (if |pieces| < 2 then |pieces| else 2)
      && forall i :: 0 <= i < |r| ==> r[i] == UpperChar(pieces[i][0])
  {
    var s := Upper(FirstChars(SplitOn(name, ' ')));
    if |s| <= 2 then s else s[..2]
  }

  /** A name written as single-spaced words has the initials of its first two words. */
  lemma SpaceInitialsOfSpaced(ws: seq<string>)
    requires |ws| >= 1
    requires forall i :: 0 <= i < |ws| ==> |ws[i]| > 0
    requires forall i, j :: 0 <= i < |ws| && 0 <= j < |ws[i]| ==> ws[i][j] != ' '
    ensures |ws| == 1 ==> SpaceInitials(Join(ws, " ")) == [UpperChar(ws[0][0])]
    ensures |ws| >= 2 ==> SpaceInitials(Join(ws, " ")) == [UpperChar(ws[0][0]), UpperChar(ws[1][0])]
  {
    assert " " == [' '];
    JoinSplitRoundTrip(ws, ' ');
    KeepAll(ws, (w: string) => w != "");
  }

  /** How many multiples of 2^32 JavaScript's ToInt32 removes from `x`. */
  function WrapCount(x: int): int
  {
    x / 0x1_0000_0000 + (if x % 0x1_0000_0000 >= 0x8000_0000 then 1 else 0)
  }

  /** JavaScript's ToInt32: the signed 32-bit value that differs from `x` by a multiple of 2^32. */
  function ToInt32(x: int): (r: int)
    ensures -0x8000_0000 <= r < 0x8000_0000
    ensures r == x - WrapCount(x) * 0x1_0000_0000
  {
    var m := x % 0x1_0000_0000;
    if m >= 0x8000_0000 then m - 0x1_0000_0000 else m
  }

  /** Adding a multiple of 2^32 does not change ToInt32. */
  lemma ToInt32Shift(x: int, k: int)
    ensures ToInt32(x + k * 0x1_0000_0000) == ToInt32(x)
  {
    var y := x + k * 0x1_0000_0000;
    var d := WrapCount(y) - WrapCount(x) - k;
    assert ToInt32(y) - ToInt32(x) == -d * 0x1_0000_0000;
    assert d == 0;
  }

  /** One step of the loop: `hash = ((hash << 5) - hash + userId.charCodeAt(i)) & 0xffffffff`. */
  function HashStep(hash: int, c: char): int
  {
    ToInt32(ToInt32(hash * 32) - hash + c as int)
  }

  /** The hash of a whole id, folding `HashStep` from the left starting at 0. */
  function Hash(s: string): (h: int)
    ensures -0x8000_0000 <= h < 0x8000_0000
  {
    if s == [] then 0 else HashStep(Hash(s[..|s| - 1]), s[|s| - 1])
  }

  /** The same hash with unbounded integers: `h * 31 + c` over the characters. */
  function PolyHash(s: string): int
  {
    if s == [] then 0 else 31 * PolyHash(s[..|s| - 1]) + s[|s| - 1] as int
  }

  /** The wrapped hash is the unbounded polynomial hash reduced to a signed 32-bit value. */
  lemma {:induction false} HashIsWrappedPolyHash(s: string)
    ensures Hash(s) == ToInt32(PolyHash(s))
    decreases |s|
  {
    if s != [] {
      var p := s[..|s| - 1];
      var c := s[|s| - 1] as int;
      HashIsWrappedPolyHash(p);
      var h := Hash(p);
      var q := PolyHash(p);
      var a := -WrapCount(q);
      assert h == q + a * 0x1_0000_0000;
      var w := WrapCount(h * 32);
      assert ToInt32(h * 32) - h + c == (31 * q + c) + (31 * a - w) * 0x1_0000_0000;
      ToInt32Shift(31 * q + c, 31 * a - w);
    }
  }

  /** `Math.abs(hash)`. */
  function Abs(x: int): (r: nat)
    ensures r == x || r == -x
  {
    if x < 0 then -x else x
  }

  /** The ten colours of the thread page's avatars. */
  const ThreadPalette: seq<string> := [
    "#FF6B6B", "#4ECDC4", "#45B7D1", "#96CEB4", "#FFEAA7",
    "#DDA0DD", "#98D8C8", "#F7DC6F", "#BB8FCE", "#85C1E9"]

  /** The twelve colours of the collaborative editor's cursors. */
  const EditorPalette: seq<string> := ThreadPalette + ["#F8C471", "#82E0AA"]

  /** `colors[Math.abs(hash) % colors.length]`. */
  function ColorIndex(userId: string, paletteSize: nat): (i: nat)
    requires paletteSize > 0
    ensures i < paletteSize
  {
    Abs(Hash(userId)) % paletteSize
  }

  /** `generateUserColor`, computing the hash with the source's loop. */
  method UserColor(userId: string, palette: seq<string>) returns (color: string)
    requires |palette| > 0
    ensures color in palette
    ensures color == palette[Abs(ToInt32(PolyHash(userId))) % |palette|]
  {
    var hash := 0;
    var i := 0;
    while i < |userId|
      invariant 0 <= i <= |userId|
      invariant hash == Hash(userId[..i])
    {
      assert userId[..i + 1][..i] == userId[..i];
      hash := ToInt32(ToInt32(hash * 32) - hash + userId[i] as int);
      i := i + 1;
    }
    assert userId[..|userId|] == userId;
    HashIsWrappedPolyHash(userId);
    color := palette[Abs(hash) % |palette|];
  }

  /** Both palettes hand every user one of their own colours. */
  method ThreadAndEditorColors(userId: string) returns (thread: string, editor: string)
    ensures thread in ThreadPalette && editor in EditorPalette
    ensures thread == ThreadPalette[ColorIndex(userId, 10)]
    ensures editor == EditorPalette[ColorIndex(userId, 12)]
  {
    thread := UserColor(userId, ThreadPalette);
    editor := UserColor(userId, EditorPalette);
    HashIsWrappedPolyHash(userId);
  }
}
