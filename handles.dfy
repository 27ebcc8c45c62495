/** Login handles derived from owners' names (script.js, `createUserNames`):
    `owner.toLowerCase().split(' ').map(name => name[0]).join('')`, and the
    first-match lookup by handle that `find`/`findIndex` perform. */
module Handles {

  /** `toLowerCase` on the ASCII capitals; every other character is kept. */
  function LowerChar(c: char): char
  {
    if 'A' <= c <= 'Z' then (c as int + 32) as char else c
  }

  function Lower(s: string): (r: string)
    ensures |r| == |s|
  {
    if s == [] then [] else [LowerChar(s[0])] + Lower(s[1..])
  }

  /** `split(' ')`: the pieces between single spaces, empty pieces included, so there
      is always at least one piece. */
  function Split(s: string): (words: seq<string>)
    ensures |words| >= 1
    ensures forall k :: 0 <= k < |words| ==> ' ' !in words[k]
  {
    if s == [] then [[]]
    else
      var rest := Split(s[1..]);
      if s[0] == ' ' then [[]] + rest else [[s[0]] + rest[0]] + rest[1..]
  }

  /** `join(' ')`, the inverse of `split(' ')`. */
  function Join(words: seq<string>): string
    requires |words| >= 1
  {
    if |words| == 1 then words[0] else words[0] + " " + Join(words[1..])
  }

  /** Splitting at spaces loses nothing: joining the pieces with spaces gives the
      original string back. */
  lemma {:induction false} SplitJoin(s: string)
    ensures Join(Split(s)) == s
  {
    if s != [] {
      var rest := Split(s[1..]);
      SplitJoin(s[1..]);
      if s[0] == ' ' {
        assert Split(s) == [[]] + rest;
        assert Join(Split(s)) == [] + " " + Join(rest);
      } else {
        var words := Split(s);
        assert words == [[s[0]] + rest[0]] + rest[1..];
        if |rest| == 1 {
          assert Join(words) == [s[0]] + rest[0];
        } else {
          assert words[1..] == rest[1..];
          assert Join(rest) == rest[0] + " " + Join(rest[1..]);
        }
      }
    }
  }

  /** `map(name => name[0]).join('')`: the first character of each piece; an empty piece
      gives `undefined`, which `join` turns into the empty string. */
  function Initials(words: seq<string>): string
  {
    if words == [] then []
    else (if words[0] == [] then [] else [words[0][0]]) + Initials(words[1..])
  }

  function Handle(owner: string): string
  {
    Initials(Split(Lower(owner)))
  }

  /** Reference definition by a scan over the characters: a character is kept exactly
      when it is not a space and it starts the string or follows a space. */
  function WordStarts(s: string, atStart: bool): string
  {
    if s == [] then []
    else (if atStart && s[0] != ' ' then [s[0]] else []) + WordStarts(s[1..], s[0] == ' ')
  }

  lemma {:induction false} InitialsAreWordStarts(s: string)
    ensures Initials(Split(s)) == WordStarts(s, true)
    ensures Initials(Split(s)[1..]) == WordStarts(s, false)
  {
    if s != [] {
      var rest := Split(s[1..]);
      InitialsAreWordStarts(s[1..]);
      if s[0] == ' ' {
        assert Split(s) == [[]] + rest;
        assert Split(s)[1..] == rest;
      } else {
        var words := Split(s);
        assert words == [[s[0]] + rest[0]] + rest[1..];
        assert words[1..] == rest[1..];
        assert Initials(rest) == (if rest[0] == [] then [] else [rest[0][0]]) + Initials(rest[1..]);
      }
    }
  }

  lemma {:induction false} WordStartsChars(s: string, atStart: bool)
    ensures forall k :: 0 <= k < |WordStarts(s, atStart)| ==> WordStarts(s, atStart)[k] in s && WordStarts(s, atStart)[k] != ' '
    ensures |WordStarts(s, atStart)| <= |s|
  {
    if s != [] {
      WordStartsChars(s[1..], s[0] == ' ');
    }
  }

  lemma {:induction false} LowerHasNoCapitals(s: string)
    ensures forall c :: c in Lower(s) ==> !('A' <= c <= 'Z')
  {
    if s != [] {
      LowerHasNoCapitals(s[1..]);
    }
  }

  /** A handle is the lower-cased owner name's word-initial characters, in order: it holds
      no space and no capital letter and is never longer than the name. */
  lemma HandleShape(owner: string)
    ensures Handle(owner) == WordStarts(Lower(owner), true)
    ensures forall c :: c in Handle(owner) ==> c != ' ' && !('A' <= c <= 'Z')
    ensures |Handle(owner)| <= |owner|
  {
    InitialsAreWordStarts(Lower(owner));
    WordStartsChars(Lower(owner), true);
    LowerHasNoCapitals(owner);
  }

  lemma {:induction false} LowerAppend(a: string, b: string)
    ensures Lower(a + b) == Lower(a) + Lower(b)
  {
    if a == [] {
      assert a + b == b;
    } else {
      assert (a + b)[1..] == a[1..] + b;
      LowerAppend(a[1..], b);
    }
  }

  lemma {:induction false} LowerKeepsSpaces(s: string)
    ensures forall k :: 0 <= k < |s| ==> (Lower(s)[k] == ' ' <==> s[k] == ' ')
    ensures s != [] ==> Lower(s)[0] == LowerChar(s[0])
  {
    if s != [] {
      LowerKeepsSpaces(s[1..]);
    }
  }

  lemma {:induction false} WordStartsAppend(a: string, b: string, atStart: bool)
    ensures WordStarts(a + b, atStart) ==
      WordStarts(a, atStart) + WordStarts(b, if a == [] then atStart else a[|a| - 1] == ' ')
  {
    if a != [] {
      assert (a + b)[0] == a[0] && (a + b)[1..] == a[1..] + b;
      WordStartsAppend(a[1..], b, a[0] == ' ');
    } else {
      assert a + b == b;
    }
  }

  lemma {:induction false} WordStartsOfWord(w: string, atStart: bool)
    requires w != [] && ' ' !in w
    ensures WordStarts(w, atStart) == if atStart then [w[0]] else []
  {
    if |w| > 1 {
      assert ' ' !in w[1..];
      WordStartsOfWord(w[1..], false);
    }
  }

  /** A name made of non-empty words separated by single spaces gets one initial per
      word: the lower-cased first letter of each word, in order. */
  lemma {:induction false} HandleOfWords(words: seq<string>)
    requires |words| >= 1
    requires forall k :: 0 <= k < |words| ==> words[k] != [] && ' ' !in words[k]
    ensures Handle(Join(words)) == seq(|words|, k requires 0 <= k < |words| => LowerChar(words[k][0]))
  {
    var w := words[0];
    var lw := Lower(w);
    LowerKeepsSpaces(w);
    assert lw != [] && ' ' !in lw && lw[0] == LowerChar(w[0]);
    HandleShape(Join(words));
    if |words| == 1 {
      WordStartsOfWord(lw, true);
    } else {
      var tail := Join(words[1..]);
      HandleOfWords(words[1..]);
      HandleShape(tail);
      assert Join(words) == w + (" " + tail);
      LowerAppend(w, " " + tail);
      LowerAppend(" ", tail);
      assert Lower(" ") == " ";
      WordStartsAppend(lw, " " + Lower(tail), true);
      WordStartsOfWord(lw, true);
      assert (" " + Lower(tail))[1..] == Lower(tail);
      assert WordStarts(" " + Lower(tail), false) == WordStarts(Lower(tail), true);
    }
  }

  /** The seed owner Jessica Davis gets the handle `jd`. */
  lemma HandleExampleJd()
    ensures Handle("Jessica Davis") == "jd"
  {
    var words := ["Jessica", "Davis"];
    assert Join(words[1..]) == "Davis";
    assert Join(words) == "Jessica Davis";
    assert forall k :: 0 <= k < 2 ==> words[k] != [] && ' ' !in words[k];
    HandleOfWords(words);
    assert words[0][0] == 'J' && words[1][0] == 'D';
    assert LowerChar('J') == 'j' && LowerChar('D') == 'd';
  }

  /** The seed owner Jonas Schmedtmann gets the handle `js`. */
  lemma HandleExampleJs()
    ensures Handle("Jonas Schmedtmann") == "js"
  {
    var words := ["Jonas", "Schmedtmann"];
    assert Join(words[1..]) == "Schmedtmann";
    assert Join(words) == "Jonas Schmedtmann";
    assert forall k :: 0 <= k < 2 ==> words[k] != [] && ' ' !in words[k];
    HandleOfWords(words);
    assert words[0][0] == 'J' && words[1][0] == 'S';
    assert LowerChar('J') == 'j' && LowerChar('S') == 's';
  }

  /** `findIndex(h => h === handle)`: the first position holding `handle`, or -1. */
  function FindIndex(handles: seq<string>, handle: string): (i: int)
    ensures -1 <= i < |handles|
    ensures i == -1 <==> handle !in handles
    ensures 0 <= i ==> handles[i] == handle && handle !in handles[..i]
  {
    if handles == [] then -1
    else if handles[0] == handle then 0
    else
      var j := FindIndex(handles[1..], handle);
      assert handles == [handles[0]] + handles[1..];
      if j < 0 then -1 else
        assert handles[..j + 1] == [handles[0]] + handles[1..][..j];
        j + 1
  }
}
