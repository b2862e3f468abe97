/** The avatar fallback of the navigation bar: the initials of a user's name,
    or of their email address when the name is absent or empty.

    `getInitials` splits its argument on single spaces, keeps the first
    character of every part (an empty part contributes nothing, because
    `join` renders the `undefined` of `""[0]` as the empty string),
    upper-cases the concatenation and keeps at most two characters. A falsy
    argument gives `"?"`.
 */
module Initials {
  import opened Text

  /** Position of the first occurrence of `c` in `s`. */
  function IndexOf(s: string, c: char): (i: nat)
    requires c in s
    ensures i < |s| && s[i] == c
    ensures c !in s[..i]
  {
    if s[0] == c then 0
    else
      var j := IndexOf(s[1..], c);
      assert s[..j + 1] == [s[0]] + s[1..][..j];
      1 + j
  }

  /** Splitting on single spaces: the maximal space-free pieces between consecutive
      spaces, including the empty pieces that leading, trailing and repeated
      spaces produce. */
  function Split(s: string): (parts: seq<string>)
    ensures |parts| >= 1
    ensures forall k :: 0 <= k < |parts| ==> Space !in parts[k]
    decreases |s|
  {
    if Space !in s then [s]
    else
      var i := IndexOf(s, Space);
      [s[..i]] + Split(s[i + 1..])
  }

  /** The pieces glued back together with one space between neighbours. */
  function Join(parts: seq<string>): string
    requires |parts| >= 1
  {
    if |parts| == 1 then parts[0] else parts[0] + [Space] + Join(parts[1..])
  }

  /** The first character of a piece, or nothing for an empty piece (the
      source reads an undefined first character, which joining renders as
      the empty string). */
  function Head(part: string): (r: string)
    ensures |r| <= 1
    ensures r <= part
    ensures r == "" <==> part == ""
  {
    if part == "" then "" else [part[0]]
  }

  /** The first character of every piece, concatenated in order; an empty
      piece contributes nothing. */
  function FirstChars(parts: seq<string>): (r: string)
    ensures |r| <= |parts|
    ensures (forall k :: 0 <= k < |parts| ==> Space !in parts[k]) ==> Space !in r
  {
    if parts == [] then "" else Head(parts[0]) + FirstChars(parts[1..])
  }

  /** `getInitials(name)` of components/Navbar.tsx. */
  function GetInitials(name: Option<string>): (r: string)
    ensures !Truthy(name) ==> r == "?"
    ensures Truthy(name) ==> |r| <= 2 && Space !in r
    ensures Truthy(name) ==> forall i :: 0 <= i < |r| ==> !IsLower(r[i])
  {
    if !Truthy(name) then "?"
    else Substring(UpperString(FirstChars(Split(name.value))), 2)
  }

  /** The avatar fallback text: the initials of the user's name, or of the
      email address when the name is absent or empty. */
  function AvatarFallback(name: Option<string>, email: Option<string>): (r: string)
    ensures Truthy(name) ==> r == GetInitials(name)
    ensures !Truthy(name) ==> r == GetInitials(email)
    ensures !Truthy(name) && !Truthy(email) ==> r == "?"
  {
    GetInitials(Or(name, email))
  }

  // ---------------------------------------------------------------------
  // An independent reading of the initials: a one-pass scanner that keeps
  // every non-space character standing at the start of the string or right
  // after a space.

  /** The word-initial characters of `s`, where `afterSpace` says whether the
      character before `s` (if any) was a space or the start of the text. */
  function StartsAfter(s: string, afterSpace: bool): string
  {
    if s == "" then ""
    else (if s[0] != Space && afterSpace then [s[0]] else "") + StartsAfter(s[1..], s[0] == Space)
  }

  function WordStarts(s: string): string {
    StartsAfter(s, true)
  }

  /** Scanning over a space-free word yields at most its first character and
      leaves the scanner in the "inside a word" state. */
  lemma {:induction false} SkipWord(w: string, u: string, afterSpace: bool)
    requires Space !in w
    ensures StartsAfter(w + u, afterSpace)
         == (if afterSpace then Head(w) else "") + (if w == "" then StartsAfter(u, afterSpace) else StartsAfter(u, false))
    decreases |w|
  {
    if w == "" {
      assert w + u == u;
    } else {
      assert (w + u)[0] == w[0];
      assert (w + u)[1..] == w[1..] + u;
      SkipWord(w[1..], u, false);
    }
  }

  /** The pieces of `split(' ')` and the scanner agree: the first characters
      of the non-empty pieces are exactly the word-initial characters. */
  lemma {:induction false} FirstCharsOfSplit(s: string)
    ensures FirstChars(Split(s)) == WordStarts(s)
    decreases |s|
  {
    if Space !in s {
      SkipWord(s, "", true);
      assert s + "" == s;
    } else {
      var i := IndexOf(s, Space);
      var w, t := s[..i], s[i + 1..];
      var parts := Split(s);
      assert parts == [w] + Split(t);
      assert FirstChars(parts) == Head(w) + FirstChars(Split(t));
      FirstCharsOfSplit(t);
      assert s == w + ([Space] + t);
      SkipWord(w, [Space] + t, true);
      assert StartsAfter([Space] + t, false) == StartsAfter(t, true) by {
        assert ([Space] + t)[1..] == t;
      }
      assert StartsAfter([Space] + t, true) == StartsAfter(t, true) by {
        assert ([Space] + t)[1..] == t;
      }
    }
  }

  /** The initials of a non-empty name are the upper-cased first two
      word-initial characters. */
  lemma InitialsAreWordStarts(name: string)
    requires name != ""
    ensures GetInitials(Some(name)) == Substring(UpperString(WordStarts(name)), 2)
  {
    FirstCharsOfSplit(name);
  }

  /** As many initials as there are words, up to two. */
  lemma InitialsLength(name: string)
    requires name != ""
    ensures |GetInitials(Some(name))| == if |WordStarts(name)| < 2 then |WordStarts(name)| else 2
  {
    InitialsAreWordStarts(name);
  }

  /** A trailing space changes nothing. */
  lemma {:induction false} StartsAfterTrailingSpace(s: string, afterSpace: bool)
    ensures StartsAfter(s + [Space], afterSpace) == StartsAfter(s, afterSpace)
    decreases |s|
  {
    if s == "" {
      assert [Space][1..] == "";
    } else {
      assert (s + [Space])[1..] == s[1..] + [Space];
      StartsAfterTrailingSpace(s[1..], s[0] == Space);
    }
  }

  /** Doubling a space changes nothing. */
  lemma {:induction false} StartsAfterRepeatedSpace(a: string, c: string, afterSpace: bool)
    ensures StartsAfter(a + [Space, Space] + c, afterSpace) == StartsAfter(a + [Space] + c, afterSpace)
    decreases |a|
  {
    if a == "" {
      assert a + [Space, Space] + c == [Space] + ([Space] + c);
      assert a + [Space] + c == [Space] + c;
    } else {
      assert (a + [Space, Space] + c)[1..] == a[1..] + [Space, Space] + c;
      assert (a + [Space] + c)[1..] == a[1..] + [Space] + c;
      StartsAfterRepeatedSpace(a[1..], c, a[0] == Space);
    }
  }

  /** A string of spaces has no word-initial characters. */
  lemma {:induction false} StartsAfterOnlySpaces(s: string, afterSpace: bool)
    requires forall i :: 0 <= i < |s| ==> s[i] == Space
    ensures StartsAfter(s, afterSpace) == ""
    decreases |s|
  {
    if s != "" {
      StartsAfterOnlySpaces(s[1..], true);
    }
  }

  /** A leading space contributes nothing, as long as something follows it
      (the empty name is the `"?"` case). */
  lemma LeadingSpaceIgnored(name: string)
    requires name != ""
    ensures GetInitials(Some([Space] + name)) == GetInitials(Some(name))
  {
  }

  /** A trailing space contributes nothing, as long as something precedes it. */
  lemma TrailingSpaceIgnored(name: string)
    requires name != ""
    ensures GetInitials(Some(name + [Space])) == GetInitials(Some(name))
  {
    InitialsAreWordStarts(name + [Space]);
    InitialsAreWordStarts(name);
    StartsAfterTrailingSpace(name, true);
  }

  /** Two spaces in a row separate words exactly as one does. */
  lemma RepeatedSpaceIgnored(a: string, c: string)
    ensures GetInitials(Some(a + [Space, Space] + c)) == GetInitials(Some(a + [Space] + c))
  {
    InitialsAreWordStarts(a + [Space, Space] + c);
    InitialsAreWordStarts(a + [Space] + c);
    StartsAfterRepeatedSpace(a, c, true);
  }

  /** A non-empty name of spaces only has no initials at all: the result is
      the empty string, not `"?"`. */
  lemma OnlySpacesGiveEmpty(name: string)
    requires name != ""
    requires forall i :: 0 <= i < |name| ==> name[i] == Space
    ensures GetInitials(Some(name)) == ""
  {
    InitialsAreWordStarts(name);
    StartsAfterOnlySpaces(name, true);
  }

  /** A non-empty name yields `"?"` only if it contains a `'?'` itself: the
      marker is otherwise reserved for an empty or absent name. */
  lemma QuestionMarkOnlyWhenEmpty(name: string)
    requires name != "" && '?' !in name
    ensures GetInitials(Some(name)) != "?"
  {
    var ws := WordStarts(name);
    InitialsAreWordStarts(name);
    WordStartsFromText(name, true);
    if ws != "" {
      assert ws[0] in name;
      assert UpperString(ws)[0] == UpperChar(ws[0]) != '?';
    }
  }

  /** Every word-initial character occurs in the text. */
  lemma {:induction false} WordStartsFromText(s: string, afterSpace: bool)
    ensures forall c :: c in StartsAfter(s, afterSpace) ==> c in s
    decreases |s|
  {
    if s != "" {
      WordStartsFromText(s[1..], s[0] == Space);
    }
  }

  // ---------------------------------------------------------------------
  // `split` and `join` with the same separator are inverse to each other.

  /** Gluing the pieces of a split back together with spaces restores the
      original string. */
  lemma {:induction false} JoinSplit(s: string)
    ensures Join(Split(s)) == s
    decreases |s|
  {
    if Space in s {
      var i := IndexOf(s, Space);
      JoinSplit(s[i + 1..]);
      assert s == s[..i] + [Space] + s[i + 1..];
    }
  }

  /** Joining space-free pieces with spaces and splitting again gives back the
      pieces. */
  lemma {:induction false} SplitJoin(parts: seq<string>)
    requires |parts| >= 1
    requires forall k :: 0 <= k < |parts| ==> Space !in parts[k]
    ensures Split(Join(parts)) == parts
    decreases |parts|
  {
    if |parts| > 1 {
      var w, rest := parts[0], Join(parts[1..]);
      var s := w + [Space] + rest;
      assert s[|w|] == Space;
      assert s[..|w|] == w;
      var i := IndexOf(s, Space);
      assert i == |w|;
      assert s[..i] == w;
      assert s[i + 1..] == rest;
      SplitJoin(parts[1..]);
      assert parts == [w] + parts[1..];
    }
  }
}
