/** The avatar initials rule. The user table and the navbar each carry an
    identical copy of it; here it is defined once. */
module Initials {

  import opened Optional
  import opened Text
  import opened Seqs

  /** `s.split(" ")`: the pieces between single spaces, empty pieces included. */
  function SplitOnSpace(s: string): (r: seq<string>)
    ensures |r| >= 1
  {
    if |s| == 0 then [""]
    else
      var rest := SplitOnSpace(s[1..]);
      if s[0] == ' ' then [""] + rest else [[s[0]] + rest[0]] + rest[1..]
  }

  /** `s.split(" ").filter(Boolean)`: the non-empty space-separated words. */
  function Words(s: string): seq<string>
  {
    Filter(SplitOnSpace(s), (w: string) => |w| > 0)
  }

  /** `initials(name)`: "U" for an absent or empty name; otherwise the
      upper-cased first letters of the first and (when there are two or more
      words) the last word; for a name made only of spaces, its first two
      characters upper-cased. */
  function Initials(name: Option<string>): (r: string)
    ensures name == None || name == Some("") ==> r == "U"
    ensures name.Some? && name.value != "" ==> 1 <= |r| <= 2
  {
    match name
    case None => "U"
    case Some(n) =>
      if n == "" then "U"
      else
        var parts := Words(n);
        var first := if |parts| > 0 then [parts[0][0]] else "";
        var last := if |parts| > 1 then [parts[|parts| - 1][0]] else "";
        var both := UpperStr(first + last);
        if both != "" then both else UpperStr(n[..Min(2, |n|)])
  }

  /** `f` is the position of the first character of `s` that is not a space. */
  predicate IsFirstNonSpace(s: string, f: nat)
  {
    f < |s| && s[f] != ' ' && forall i :: 0 <= i < f ==> s[i] == ' '
  }

  /** A word of `s` starts at `i`. */
  predicate IsWordStart(s: string, i: int)
  {
    0 <= i < |s| && s[i] != ' ' && (i == 0 || s[i - 1] == ' ')
  }

  /** `l` is where the last word of `s` starts. */
  predicate IsLastWordStart(s: string, l: nat)
  {
    IsWordStart(s, l) && forall i :: l < i < |s| ==> !IsWordStart(s, i)
  }

  /** A leading space contributes no word. */
  lemma WordsSpaceCons(t: string)
    ensures Words([' '] + t) == Words(t)
  {
    assert ([' '] + t)[1..] == t;
    FilterCons("", SplitOnSpace(t), (w: string) => |w| > 0);
  }

  /** A leading non-space character either forms a word of its own (when a
      space or the end follows) or starts the first word of the rest. */
  lemma WordsCharCons(c: char, t: string)
    requires c != ' '
    ensures t == "" || t[0] == ' ' ==> Words([c] + t) == [[c]] + Words(t)
    ensures t != "" && t[0] != ' ' ==>
      |Words(t)| >= 1 && Words([c] + t) == [[c] + Words(t)[0]] + Words(t)[1..]
  {
    var p := (w: string) => |w| > 0;
    var st := SplitOnSpace(t);
    assert ([c] + t)[1..] == t;
    assert SplitOnSpace([c] + t) == [[c] + st[0]] + st[1..];
    FilterCons([c] + st[0], st[1..], p);
    assert st == [st[0]] + st[1..];
    FilterCons(st[0], st[1..], p);
    if t == "" || t[0] == ' ' {
      assert st[0] == "";
      assert [c] + st[0] == [c];
    } else {
      assert st[0] != "";
    }
  }

  /** A string of spaces has no words. */
  lemma {:induction false} WordsAllSpaces(s: string)
    requires forall i :: 0 <= i < |s| ==> s[i] == ' '
    ensures Words(s) == []
    decreases |s|
  {
    if |s| > 0 {
      WordsAllSpaces(s[1..]);
      assert s == [' '] + s[1..];
      WordsSpaceCons(s[1..]);
    }
  }

  /** The first non-space character of a string that has one. */
  lemma {:induction false} FirstNonSpaceExists(s: string, j: nat) returns (f: nat)
    requires j < |s| && s[j] != ' '
    ensures IsFirstNonSpace(s, f) && f <= j
    decreases j
  {
    if j == 0 || forall i :: 0 <= i < j ==> s[i] == ' ' {
      f := j;
    } else {
      var i :| 0 <= i < j && s[i] != ' ';
      f := FirstNonSpaceExists(s, i);
    }
  }

  /** The words of `s`, read off raw positions: the first word begins at the
      first non-space `f`, the last word at `l`, and there are two or more
      words exactly when these differ. */
  lemma {:induction false} WordsByPosition(s: string, f: nat, l: nat)
    requires IsFirstNonSpace(s, f) && IsLastWordStart(s, l)
    ensures |Words(s)| >= 1
    ensures Words(s)[0][0] == s[f]
    ensures Words(s)[|Words(s)| - 1][0] == s[l]
    ensures |Words(s)| >= 2 <==> f < l
    decreases |s|, 1
  {
    var t := s[1..];
    assert s == [s[0]] + t;
    if s[0] == ' ' {
      WordsAfterSpace(s, f, l);
    } else if t == "" {
      WordsCharCons(s[0], t);
      WordsAllSpaces(t);
    } else if t[0] == ' ' {
      WordsAfterSeparateLetter(s, l);
    } else {
      WordsAfterJoinedLetter(s, l);
    }
  }

  /** Induction step of `WordsByPosition` for a leading space. */
  lemma {:induction false} WordsAfterSpace(s: string, f: nat, l: nat)
    requires IsFirstNonSpace(s, f) && IsLastWordStart(s, l) && s[0] == ' '
    ensures |Words(s)| >= 1
    ensures Words(s)[0][0] == s[f]
    ensures Words(s)[|Words(s)| - 1][0] == s[l]
    ensures |Words(s)| >= 2 <==> f < l
    decreases |s|, 0
  {
    var t := s[1..];
    assert s == [' '] + t;
    WordsSpaceCons(t);
    assert IsFirstNonSpace(t, f - 1);
    forall i | l - 1 < i < |t|
      ensures !IsWordStart(t, i)
    {
      assert !IsWordStart(s, i + 1);
    }
    WordsByPosition(t, f - 1, l - 1);
  }

  /** Induction step of `WordsByPosition` for a one-letter first word. */
  lemma {:induction false} WordsAfterSeparateLetter(s: string, l: nat)
    requires |s| >= 2 && s[0] != ' ' && s[1] == ' ' && IsLastWordStart(s, l)
    ensures |Words(s)| >= 1
    ensures Words(s)[0][0] == s[0]
    ensures Words(s)[|Words(s)| - 1][0] == s[l]
    ensures |Words(s)| >= 2 <==> 0 < l
    decreases |s|, 0
  {
    var t := s[1..];
    assert s == [s[0]] + t;
    WordsCharCons(s[0], t);
    if l == 0 {
      forall i | 0 <= i < |t|
        ensures t[i] == ' '
      {
        if t[i] != ' ' {
          var g := FirstNonSpaceExists(t, i);
          assert IsWordStart(s, g + 1);
        }
      }
      WordsAllSpaces(t);
    } else {
      var g := FirstNonSpaceExists(t, l - 1);
      forall i | l - 1 < i < |t|
        ensures !IsWordStart(t, i)
      {
        assert !IsWordStart(s, i + 1);
      }
      WordsByPosition(t, g, l - 1);
    }
  }

  /** Dropping the first letter of a word of two or more letters keeps the
      last word's start, shifted by one (or at 0 when it was the first word). */
  lemma LastWordStartOfTail(s: string, l: nat)
    requires |s| >= 2 && s[0] != ' ' && s[1] != ' ' && IsLastWordStart(s, l)
    ensures l != 1
    ensures IsLastWordStart(s[1..], if l == 0 then 0 else l - 1)
  {
    var t := s[1..];
    forall i | (if l == 0 then 0 else l - 1) < i < |t|
      ensures !IsWordStart(t, i)
    {
      assert !IsWordStart(s, i + 1);
    }
  }

  /** Induction step of `WordsByPosition` for a first word of two or more letters. */
  lemma {:induction false} WordsAfterJoinedLetter(s: string, l: nat)
    requires |s| >= 2 && s[0] != ' ' && s[1] != ' ' && IsLastWordStart(s, l)
    ensures |Words(s)| >= 1
    ensures Words(s)[0][0] == s[0]
    ensures Words(s)[|Words(s)| - 1][0] == s[l]
    ensures |Words(s)| >= 2 <==> 0 < l
    decreases |s|, 0
  {
    var t := s[1..];
    WordsOfJoinedLetter(s);
    assert IsFirstNonSpace(t, 0);
    LastWordStartOfTail(s, l);
    WordsByPosition(t, 0, if l == 0 then 0 else l - 1);
    JoinedShape(s[0], Words(s), Words(t));
  }

  /** Gluing a letter onto the first of the words `wt` keeps their number
      and their last word, unless that word was the first. */
  lemma JoinedShape(c: char, ws: seq<string>, wt: seq<string>)
    requires |wt| >= 1 && ws == [[c] + wt[0]] + wt[1..]
    ensures |ws| == |wt| && ws[0][0] == c
    ensures |wt| >= 2 ==> ws[|ws| - 1] == wt[|wt| - 1]
    ensures |wt| == 1 ==> ws[|ws| - 1][0] == c
  {
  }

  /** `WordsCharCons` for a string whose first two characters are letters. */
  lemma WordsOfJoinedLetter(s: string)
    requires |s| >= 2 && s[0] != ' ' && s[1] != ' '
    ensures |Words(s[1..])| >= 1
    ensures Words(s) == [[s[0]] + Words(s[1..])[0]] + Words(s[1..])[1..]
  {
    assert s == [s[0]] + s[1..];
    WordsCharCons(s[0], s[1..]);
  }

  /** For a name with a non-space character, the initials are the
      upper-cased first non-space character, followed by the upper-cased
      first character of the last word when that word is not the first. */
  lemma InitialsByPosition(name: string, f: nat, l: nat)
    requires IsFirstNonSpace(name, f) && IsLastWordStart(name, l)
    ensures Initials(Some(name)) == [Upper(name[f])] + (if f < l then [Upper(name[l])] else [])
  {
    WordsByPosition(name, f, l);
  }

  /** A non-empty name made only of spaces falls back to its first two
      characters, which upper-casing leaves unchanged. */
  lemma InitialsOfSpaces(name: string)
    requires name != "" && forall i :: 0 <= i < |name| ==> name[i] == ' '
    ensures Initials(Some(name)) == name[..Min(2, |name|)]
  {
    WordsAllSpaces(name);
  }
}
