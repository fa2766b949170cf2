/**
 * The two ways the registration pages turn a camelCase attribute name into a
 * table label (`formatKey`).  Both are three regular-expression replacements,
 * modelled here as character-by-character passes over the key:
 *
 *  - the details modal of the Users page: a space before every capital, a
 *    space between a digit and a following letter, then every word's first
 *    character upper-cased;
 *  - the PDF exporters: a space before every capital, the first character
 *    upper-cased, then every word's first character upper-cased.
 *
 * A "word" is a maximal run of `\w` characters `[A-Za-z0-9_]`.
 */
module FormatKey {
  import opened Strings

  /** Pass `.replace(/([A-Z])/g, " $1")`. */
  function SpaceBeforeCapitals(s: string): (r: string)
    ensures s != [] && IsUpper(s[0]) ==> |r| >= 2 && r[0] == ' ' && r[1] == s[0]
    ensures s != [] && !IsUpper(s[0]) ==> r != [] && r[0] == s[0]
    ensures SpacedCapitals(r)
    ensures |r| == |s| + CapitalCount(s)
  {
    if s == [] then []
    else
      var rest := SpaceBeforeCapitals(s[1..]);
      if IsUpper(s[0]) then [' ', s[0]] + rest else [s[0]] + rest
  }

  /**
   * Pass `.replace(/(\d)([A-Za-z])/g, "$1 $2")`.  A match starts with a digit
   * and consumes a letter, so consecutive matches never overlap and every
   * adjacent digit-letter pair is separated.
   */
  function SplitDigitLetter(s: string): (r: string)
    ensures s != [] ==> r != [] && r[0] == s[0]
    ensures NoDigitBeforeLetter(r)
    ensures SpacedCapitals(s) ==> SpacedCapitals(r)
    ensures |r| == |s| + DigitLetterCount(s)
  {
    if |s| < 2 then s
    else
      var rest := SplitDigitLetter(s[1..]);
      if IsDigit(s[0]) && IsLetter(s[1]) then [s[0], ' '] + rest else [s[0]] + rest
  }

  /** Pass `.replace(/^./, c => c.toUpperCase())`. */
  function UpperFirst(s: string): string
  {
    if s == [] then [] else [Upper(s[0])] + s[1..]
  }

  /**
   * Position `i` of `s` starts a word: a `\w` character with no `\w`
   * character before it, where `prevWord` says whether the character before
   * `s` itself was a `\w` character.
   */
  predicate WordStartAfter(s: string, prevWord: bool, i: int)
    requires 0 <= i < |s|
  {
    IsWordChar(s[i]) && (if i == 0 then !prevWord else !IsWordChar(s[i - 1]))
  }

  predicate WordStart(s: string, i: int)
    requires 0 <= i < |s|
  {
    WordStartAfter(s, false, i)
  }

  /** Pass `.replace(/\b\w/g, c => c.toUpperCase())`, scanning left to right. */
  function CapitalizeFrom(s: string, prevWord: bool): (r: string)
    ensures |r| == |s|
    ensures forall i :: 0 <= i < |s| ==> r[i] == (if WordStartAfter(s, prevWord, i) then Upper(s[i]) else s[i])
  {
    if s == [] then []
    else
      var c := if IsWordChar(s[0]) && !prevWord then Upper(s[0]) else s[0];
      var rest := CapitalizeFrom(s[1..], IsWordChar(s[0]));
      assert forall i :: 0 < i < |s| ==>
               WordStartAfter(s, prevWord, i) == WordStartAfter(s[1..], IsWordChar(s[0]), i - 1)
      by {
        forall i | 0 < i < |s|
          ensures WordStartAfter(s, prevWord, i) == WordStartAfter(s[1..], IsWordChar(s[0]), i - 1)
        {
          assert s[1..][i - 1] == s[i];
          if i > 1 {
            assert s[1..][i - 2] == s[i - 1];
          }
        }
      }
      [c] + rest
  }

  function CapitalizeWords(s: string): (r: string)
    ensures |r| == |s|
    ensures forall i :: 0 <= i < |s| ==> r[i] == (if WordStart(s, i) then Upper(s[i]) else s[i])
  {
    CapitalizeFrom(s, false)
  }

  /** `formatKey` of the Users details modal. */
  function LabelForModal(key: string): string
  {
    CapitalizeWords(SplitDigitLetter(SpaceBeforeCapitals(key)))
  }

  /** `formatKey` of the PDF exporters (Users, Payment, After School, Music). */
  function LabelForPdf(key: string): string
  {
    CapitalizeWords(UpperFirst(SpaceBeforeCapitals(key)))
  }

  // ---------------------------------------------------------------------
  // Properties of labels

  /** Every capital letter sits right after a space. */
  predicate SpacedCapitals(s: string)
  {
    forall i :: 0 <= i < |s| && IsUpper(s[i]) ==> i > 0 && s[i - 1] == ' '
  }

  /** Every capital letter after the first position sits right after a space. */
  predicate SpacedCapitalsAfterFirst(s: string)
  {
    forall i :: 0 < i < |s| && IsUpper(s[i]) ==> s[i - 1] == ' '
  }

  /** No digit is directly followed by a letter. */
  predicate NoDigitBeforeLetter(s: string)
  {
    forall i :: 0 <= i < |s| - 1 ==> !(IsDigit(s[i]) && IsLetter(s[i + 1]))
  }

  /** Every word starts with a character that is not a lower-case letter. */
  predicate Capitalized(s: string)
  {
    forall i :: 0 <= i < |s| && WordStart(s, i) ==> !IsLower(s[i])
  }

  /** Every capital letter after the first position follows a non-word character. */
  predicate CapitalsStartWords(s: string)
  {
    forall i :: 0 < i < |s| && IsUpper(s[i]) ==> !IsWordChar(s[i - 1])
  }

  /** The number of capital letters in `s`. */
  function CapitalCount(s: string): nat
  {
    if s == [] then 0 else (if IsUpper(s[0]) then 1 else 0) + CapitalCount(s[1..])
  }

  /** The number of positions where a digit is directly followed by a letter. */
  function DigitLetterCount(s: string): nat
  {
    if |s| < 2 then 0
    else (if IsDigit(s[0]) && IsLetter(s[1]) then 1 else 0) + DigitLetterCount(s[1..])
  }

  /** The number of positions where a digit is directly followed by a lower-case letter. */
  function DigitLowerCount(s: string): nat
  {
    if |s| < 2 then 0
    else (if IsDigit(s[0]) && IsLower(s[1]) then 1 else 0) + DigitLowerCount(s[1..])
  }

  /** The characters of `s` other than spaces, in order and in their own case. */
  function DropSpaces(s: string): (r: string)
    ensures |r| <= |s|
  {
    if s == [] then [] else (if s[0] == ' ' then [] else [s[0]]) + DropSpaces(s[1..])
  }

  /** `a` is `b` with some of its lower-case letters upper-cased and nothing else changed. */
  predicate UpcasedFrom(a: string, b: string)
  {
    |a| == |b| && forall i :: 0 <= i < |a| ==> a[i] == b[i] || (IsLower(b[i]) && a[i] == Upper(b[i]))
  }

  lemma {:induction false} DropSpacesAppend(a: string, b: string)
    ensures DropSpaces(a + b) == DropSpaces(a) + DropSpaces(b)
  {
    if a == [] {
      assert a + b == b;
    } else {
      assert (a + b)[0] == a[0] && (a + b)[1..] == a[1..] + b;
      DropSpacesAppend(a[1..], b);
    }
  }

  /** Upper-casing some letters keeps the spaces where they are, so it commutes with dropping them. */
  lemma {:induction false} DropSpacesUpcased(a: string, b: string)
    requires UpcasedFrom(a, b)
    ensures UpcasedFrom(DropSpaces(a), DropSpaces(b))
  {
    if a != [] {
      assert UpcasedFrom(a[1..], b[1..]) by {
        forall i | 0 <= i < |a| - 1
          ensures a[1..][i] == b[1..][i] || (IsLower(b[1..][i]) && a[1..][i] == Upper(b[1..][i]))
        {
          assert a[1..][i] == a[i + 1] && b[1..][i] == b[i + 1];
        }
      }
      DropSpacesUpcased(a[1..], b[1..]);
      assert a[0] == ' ' <==> b[0] == ' ';
    }
  }

  lemma UpcasedFromTrans(a: string, b: string, c: string)
    requires UpcasedFrom(a, b) && UpcasedFrom(b, c)
    ensures UpcasedFrom(a, c)
  {
  }

  /**
   * The capitals pass only inserts characters, all of them spaces, one per
   * capital letter: dropping spaces leaves the key exactly as it was, case
   * included, and every capital is preceded by a space.
   */
  lemma {:induction false} SpaceBeforeCapitalsInsertsSpaces(s: string)
    ensures DropSpaces(SpaceBeforeCapitals(s)) == DropSpaces(s)
    ensures |SpaceBeforeCapitals(s)| == |s| + CapitalCount(s)
  {
    if s != [] {
      SpaceBeforeCapitalsInsertsSpaces(s[1..]);
      var rest := SpaceBeforeCapitals(s[1..]);
      if IsUpper(s[0]) {
        DropSpacesAppend([' ', s[0]], rest);
        assert DropSpaces([' ', s[0]]) == [s[0]] by {
          assert [' ', s[0]][1..] == [s[0]];
        }
      } else {
        DropSpacesAppend([s[0]], rest);
      }
      assert s == [s[0]] + s[1..];
      DropSpacesAppend([s[0]], s[1..]);
    }
  }

  /**
   * The digit-letter pass only inserts spaces, one per digit directly
   * followed by a letter.
   */
  lemma {:induction false} SplitDigitLetterInsertsSpaces(s: string)
    ensures DropSpaces(SplitDigitLetter(s)) == DropSpaces(s)
  {
    if |s| >= 2 {
      SplitDigitLetterInsertsSpaces(s[1..]);
      var rest := SplitDigitLetter(s[1..]);
      if IsDigit(s[0]) && IsLetter(s[1]) {
        DropSpacesAppend([s[0], ' '], rest);
        assert DropSpaces([s[0], ' ']) == [s[0]] by {
          assert [s[0], ' '][1..] == [' '];
        }
      } else {
        DropSpacesAppend([s[0]], rest);
      }
      assert s == [s[0]] + s[1..];
      DropSpacesAppend([s[0]], s[1..]);
    }
  }

  /**
   * Once the capitals pass has run, a digit is followed by a letter only
   * where the key had a digit followed by a lower-case letter: a capital
   * after a digit has already been given its space.
   */
  lemma {:induction false} DigitLetterAfterCapitals(s: string)
    ensures DigitLetterCount(SpaceBeforeCapitals(s)) == DigitLowerCount(s)
  {
    if s != [] {
      DigitLetterAfterCapitals(s[1..]);
      var rest := SpaceBeforeCapitals(s[1..]);
      var t := SpaceBeforeCapitals(s);
      if IsUpper(s[0]) {
        assert t == [' '] + ([s[0]] + rest);
        assert t[1..] == [s[0]] + rest;
        assert DigitLetterCount(t) == DigitLetterCount([s[0]] + rest);
      }
      var u := [s[0]] + rest;
      assert u[1..] == rest;
      if |s| >= 2 {
        assert rest != [] && rest[0] == (if IsUpper(s[1]) then ' ' else s[1]);
      }
    }
  }

  /** Upper-casing word starts changes nothing but the case of some lower-case letters. */
  lemma CapitalizeWordsUpcases(s: string)
    ensures UpcasedFrom(CapitalizeWords(s), s)
  {
  }

  lemma UpperFirstUpcases(s: string)
    ensures UpcasedFrom(UpperFirst(s), s)
  {
  }

  /** After upper-casing word starts, every word is capitalised. */
  lemma CapitalizeWordsCapitalized(s: string)
    ensures Capitalized(CapitalizeWords(s))
  {
    var r := CapitalizeWords(s);
    forall i | 0 <= i < |r| && WordStart(r, i)
      ensures !IsLower(r[i])
    {
    }
  }

  /** Upper-casing word starts keeps capitals at word starts. */
  lemma CapitalizeWordsCapitalsStartWords(s: string)
    requires SpacedCapitalsAfterFirst(s)
    ensures CapitalsStartWords(CapitalizeWords(s))
  {
  }

  /** Upper-casing word starts keeps digits and letters where they were. */
  lemma CapitalizeWordsNoDigitBeforeLetter(s: string)
    requires NoDigitBeforeLetter(s)
    ensures NoDigitBeforeLetter(CapitalizeWords(s))
  {
  }

  // ---------------------------------------------------------------------
  // The modal label

  /**
   * The modal label loses no character of the key and gains only spaces:
   * with the spaces deleted, label and key are the same string except that
   * some lower-case letters are upper-cased; and the label is longer by one
   * space per capital letter and per digit directly followed by a
   * lower-case letter.  "parentFirstName" thus cannot become
   * "Parentfirstname", and "aBc" cannot lose its capital.
   */
  lemma ModalLabelKeepsCharacters(key: string)
    ensures UpcasedFrom(DropSpaces(LabelForModal(key)), DropSpaces(key))
    ensures |LabelForModal(key)| == |key| + CapitalCount(key) + DigitLowerCount(key)
  {
    var u := SpaceBeforeCapitals(key);
    var t := SplitDigitLetter(u);
    SpaceBeforeCapitalsInsertsSpaces(key);
    SplitDigitLetterInsertsSpaces(u);
    DigitLetterAfterCapitals(key);
    CapitalizeWordsUpcases(t);
    DropSpacesUpcased(CapitalizeWords(t), t);
  }

  /**
   * The modal label is split into capitalised words: every word starts with
   * a capital (or a digit or `_`), every capital starts a word, and no digit
   * runs straight into a letter.
   */
  lemma ModalLabelShape(key: string)
    ensures Capitalized(LabelForModal(key))
    ensures CapitalsStartWords(LabelForModal(key))
    ensures NoDigitBeforeLetter(LabelForModal(key))
  {
    var t := SplitDigitLetter(SpaceBeforeCapitals(key));
    CapitalizeWordsCapitalized(t);
    CapitalizeWordsCapitalsStartWords(t);
    CapitalizeWordsNoDigitBeforeLetter(t);
  }

  /**
   * A key that starts with a capital gets a leading space in front of that
   * capital; any other key keeps its first character, upper-cased.
   */
  lemma ModalLabelStart(key: string)
    requires key != []
    ensures IsUpper(key[0]) ==> LabelForModal(key)[..2] == [' ', key[0]]
    ensures !IsUpper(key[0]) ==> LabelForModal(key)[0] == Upper(key[0])
  {
    var t := SplitDigitLetter(SpaceBeforeCapitals(key));
    var r := CapitalizeWords(t);
    if IsUpper(key[0]) {
      var u := SpaceBeforeCapitals(key);
      assert t == [' '] + SplitDigitLetter(u[1..]);
      assert t[1] == key[0];
      assert r[0] == ' ' && r[1] == key[0];
    }
  }

  // ---------------------------------------------------------------------
  // The PDF label

  /**
   * The PDF label loses no character of the key and gains one space per
   * capital letter: with the spaces deleted, it is the key with some
   * lower-case letters upper-cased.
   */
  lemma PdfLabelKeepsCharacters(key: string)
    ensures UpcasedFrom(DropSpaces(LabelForPdf(key)), DropSpaces(key))
    ensures |LabelForPdf(key)| == |key| + CapitalCount(key)
  {
    var u := SpaceBeforeCapitals(key);
    var t := UpperFirst(u);
    SpaceBeforeCapitalsInsertsSpaces(key);
    UpperFirstUpcases(u);
    CapitalizeWordsUpcases(t);
    UpcasedFromTrans(CapitalizeWords(t), t, u);
    DropSpacesUpcased(CapitalizeWords(t), u);
  }

  /**
   * The PDF label is capitalised word by word and every capital starts a
   * word; unlike the modal label it has no digit rule ("child1name" stays
   * one word).
   */
  lemma PdfLabelShape(key: string)
    ensures Capitalized(LabelForPdf(key))
    ensures CapitalsStartWords(LabelForPdf(key))
  {
    var u := SpaceBeforeCapitals(key);
    var t := UpperFirst(u);
    CapitalizeWordsCapitalized(t);
    assert SpacedCapitalsAfterFirst(t);
    CapitalizeWordsCapitalsStartWords(t);
  }

  /** A key starting with a capital also gains a leading space in the PDF label. */
  lemma PdfLabelStart(key: string)
    requires key != []
    ensures IsUpper(key[0]) ==> LabelForPdf(key)[..2] == [' ', key[0]]
    ensures !IsUpper(key[0]) ==> LabelForPdf(key)[0] == Upper(key[0])
  {
  }

  // ---------------------------------------------------------------------
  // camelCase keys

  lemma {:induction false} SpaceBeforeCapitalsAppend(a: string, b: string)
    ensures SpaceBeforeCapitals(a + b) == SpaceBeforeCapitals(a) + SpaceBeforeCapitals(b)
  {
    if a != [] {
      assert (a + b)[0] == a[0] && (a + b)[1..] == a[1..] + b;
      SpaceBeforeCapitalsAppend(a[1..], b);
    } else {
      assert a + b == b;
    }
  }

  lemma {:induction false} SplitDigitLetterNoDigits(s: string)
    requires forall i :: 0 <= i < |s| ==> !IsDigit(s[i])
    ensures SplitDigitLetter(s) == s
  {
    if |s| >= 2 {
      SplitDigitLetterNoDigits(s[1..]);
    }
  }

  lemma {:induction false} CapitalizeFromAppend(a: string, b: string, prevWord: bool)
    requires a != []
    ensures CapitalizeFrom(a + b, prevWord) == CapitalizeFrom(a, prevWord) + CapitalizeFrom(b, IsWordChar(a[|a| - 1]))
  {
    assert (a + b)[0] == a[0] && (a + b)[1..] == a[1..] + b;
    if |a| > 1 {
      CapitalizeFromAppend(a[1..], b, IsWordChar(a[0]));
    }
  }

  /** A run of lower-case letters. */
  predicate LowerWord(w: string)
  {
    forall i :: 0 <= i < |w| ==> IsLower(w[i])
  }

  /** A capital letter followed by a run of lower-case letters. */
  predicate CapitalWord(w: string)
  {
    w != [] && IsUpper(w[0]) && LowerWord(w[1..])
  }

  function Concat(ws: seq<string>): string
  {
    if ws == [] then [] else ws[0] + Concat(ws[1..])
  }

  /** The words, each preceded by a space. */
  function SpacedWords(ws: seq<string>): string
  {
    if ws == [] then [] else " " + ws[0] + SpacedWords(ws[1..])
  }

  lemma {:induction false} SpaceBeforeCapitalsLowerWord(s: string)
    requires LowerWord(s)
    ensures SpaceBeforeCapitals(s) == s
  {
    if s != [] {
      SpaceBeforeCapitalsLowerWord(s[1..]);
    }
  }

  lemma {:induction false} SpaceBeforeCapitalsCaps(caps: seq<string>)
    requires forall i :: 0 <= i < |caps| ==> CapitalWord(caps[i])
    ensures SpaceBeforeCapitals(Concat(caps)) == SpacedWords(caps)
  {
    if caps != [] {
      var w := caps[0];
      SpaceBeforeCapitalsCaps(caps[1..]);
      SpaceBeforeCapitalsAppend(w, Concat(caps[1..]));
      CapitalWordSpaced(w);
    }
  }

  lemma CapitalWordSpaced(w: string)
    requires CapitalWord(w)
    ensures SpaceBeforeCapitals(w) == " " + w
  {
    assert w == [w[0]] + w[1..];
    SpaceBeforeCapitalsLowerWord(w[1..]);
  }

  lemma CapitalizeLowerWord(w: string)
    requires LowerWord(w)
    ensures CapitalizeFrom(w, false) == UpperFirst(w)
  {
  }

  lemma CapitalizeCapitalWord(w: string)
    requires CapitalWord(w)
    ensures CapitalizeFrom(w, false) == w
  {
  }

  lemma {:induction false} CapitalizeSpacedWords(caps: seq<string>, prevWord: bool)
    requires forall i :: 0 <= i < |caps| ==> CapitalWord(caps[i])
    ensures CapitalizeFrom(SpacedWords(caps), prevWord) == SpacedWords(caps)
  {
    if caps != [] {
      var w := caps[0];
      var rest := SpacedWords(caps[1..]);
      assert SpacedWords(caps) == " " + (w + rest);
      CapitalizeFromAppend(" ", w + rest, prevWord);
      CapitalizeFromAppend(w, rest, false);
      CapitalizeCapitalWord(w);
      CapitalizeSpacedWords(caps[1..], IsWordChar(w[|w| - 1]));
    }
  }

  predicate NoDigits(s: string)
  {
    forall i :: 0 <= i < |s| ==> !IsDigit(s[i])
  }

  lemma {:induction false} SpacedWordsNoDigits(caps: seq<string>)
    requires forall i :: 0 <= i < |caps| ==> CapitalWord(caps[i])
    ensures NoDigits(SpacedWords(caps))
  {
    if caps != [] {
      SpacedWordsNoDigits(caps[1..]);
      var w, rest := caps[0], SpacedWords(caps[1..]);
      var s := " " + w + rest;
      forall i | 0 <= i < |s|
        ensures !IsDigit(s[i])
      {
        if 1 < i <= |w| {
          assert s[i] == w[1..][i - 2];
        } else if i > |w| {
          assert s[i] == rest[i - 1 - |w|];
        }
      }
    }
  }

  lemma CamelSpaced(first: string, caps: seq<string>)
    requires LowerWord(first)
    requires forall i :: 0 <= i < |caps| ==> CapitalWord(caps[i])
    ensures SpaceBeforeCapitals(first + Concat(caps)) == first + SpacedWords(caps)
  {
    SpaceBeforeCapitalsAppend(first, Concat(caps));
    SpaceBeforeCapitalsLowerWord(first);
    SpaceBeforeCapitalsCaps(caps);
  }

  lemma CamelCapitalized(first: string, caps: seq<string>)
    requires LowerWord(first)
    requires forall i :: 0 <= i < |caps| ==> CapitalWord(caps[i])
    ensures CapitalizeWords(first + SpacedWords(caps)) == UpperFirst(first) + SpacedWords(caps)
  {
    if first == [] {
      assert first + SpacedWords(caps) == SpacedWords(caps);
      CapitalizeSpacedWords(caps, false);
    } else {
      CapitalizeFromAppend(first, SpacedWords(caps), false);
      CapitalizeLowerWord(first);
      CapitalizeSpacedWords(caps, true);
    }
  }

  /**
   * A camelCase key (a run of lower-case letters, possibly empty, then words
   * that each start with a capital) gets the modal label that spells its
   * words one after another, each capitalised and preceded by a space, the
   * first word without one.
   */
  lemma ModalLabelCamel(key: string, first: string, caps: seq<string>)
    requires key == first + Concat(caps)
    requires LowerWord(first)
    requires forall i :: 0 <= i < |caps| ==> CapitalWord(caps[i])
    ensures LabelForModal(key) == UpperFirst(first) + SpacedWords(caps)
  {
    CamelSpaced(first, caps);
    SpacedWordsNoDigits(caps);
    assert NoDigits(first + SpacedWords(caps));
    SplitDigitLetterNoDigits(first + SpacedWords(caps));
    CamelCapitalized(first, caps);
  }

  lemma UpperFirstAppend(a: string, b: string)
    requires a != []
    ensures UpperFirst(a + b) == UpperFirst(a) + b
  {
    assert (a + b)[1..] == a[1..] + b;
  }

  lemma SpacedWordsStart(caps: seq<string>)
    ensures UpperFirst(SpacedWords(caps)) == SpacedWords(caps)
  {
    if caps != [] {
      var sw := SpacedWords(caps);
      assert sw[0] == ' ';
      assert sw == [sw[0]] + sw[1..];
    }
  }

  lemma UpperFirstSpaced(first: string, caps: seq<string>)
    ensures UpperFirst(first + SpacedWords(caps)) == UpperFirst(first) + SpacedWords(caps)
  {
    if first == [] {
      assert first + SpacedWords(caps) == SpacedWords(caps);
      SpacedWordsStart(caps);
    } else {
      UpperFirstAppend(first, SpacedWords(caps));
    }
  }

  lemma CapitalizeUpperFirstWord(w: string)
    requires LowerWord(w)
    ensures CapitalizeFrom(UpperFirst(w), false) == UpperFirst(w)
  {
  }

  lemma CapitalizeUpperFirst(first: string, caps: seq<string>)
    requires LowerWord(first)
    requires forall i :: 0 <= i < |caps| ==> CapitalWord(caps[i])
    ensures CapitalizeWords(UpperFirst(first) + SpacedWords(caps)) == UpperFirst(first) + SpacedWords(caps)
  {
    if first == [] {
      assert UpperFirst(first) + SpacedWords(caps) == SpacedWords(caps);
      CapitalizeSpacedWords(caps, false);
    } else {
      var w := UpperFirst(first);
      CapitalizeFromAppend(w, SpacedWords(caps), false);
      CapitalizeUpperFirstWord(first);
      assert IsWordChar(w[|w| - 1]);
      CapitalizeSpacedWords(caps, true);
    }
  }

  /** The PDF label of a camelCase key is the same as its modal label. */
  lemma PdfLabelCamel(key: string, first: string, caps: seq<string>)
    requires key == first + Concat(caps)
    requires LowerWord(first)
    requires forall i :: 0 <= i < |caps| ==> CapitalWord(caps[i])
    ensures LabelForPdf(key) == UpperFirst(first) + SpacedWords(caps)
  {
    CamelSpaced(first, caps);
    UpperFirstSpaced(first, caps);
    CapitalizeUpperFirst(first, caps);
  }
  lemma WordsTwo(b: string, c: string)
    ensures Concat([b, c]) == b + c
    ensures SpacedWords([b, c]) == " " + b + " " + c
  {
    var ws := [b, c];
    assert ws[1..] == [c];
    assert [c][1..] == [];
    assert Concat([c]) == c;
    assert SpacedWords([c]) == " " + c;
  }

  lemma WordsFour(b: string, c: string, d: string, e: string)
    ensures Concat([b, c, d, e]) == b + c + d + e
    ensures SpacedWords([b, c, d, e]) == " " + b + " " + c + " " + d + " " + e
  {
    var ws := [b, c, d, e];
    assert ws[1..] == [c, d, e];
    assert ws[1..][1..] == [d, e];
    WordsTwo(d, e);
    assert Concat(ws) == b + (c + (d + e));
    assert SpacedWords(ws) == " " + b + (" " + c + (" " + d + " " + e));
  }

  lemma ParentFirstNameIsCamel(key: string)
    requires key == "parentFirstName"
    ensures key == "parent" + Concat(["First", "Name"])
  {
    WordsTwo("First", "Name");
  }

  lemma ParentFirstNameLabel()
    ensures UpperFirst("parent") + SpacedWords(["First", "Name"]) == "Parent First Name"
  {
    WordsTwo("First", "Name");
  }

  lemma ParentFirstNameWords()
    ensures LowerWord("parent") && CapitalWord("First") && CapitalWord("Name")
  {
  }

  /** `formatKey("parentFirstName")` in the modal. */
  lemma ModalLabelParentFirstName(key: string)
    requires key == "parentFirstName"
    ensures LabelForModal(key) == "Parent First Name"
  {
    ParentFirstNameIsCamel(key);
    ParentFirstNameLabel();
    ParentFirstNameWords();
    ModalLabelCamel(key, "parent", ["First", "Name"]);
  }

  lemma AfterSchoolIsCamel(key: string)
    requires key == "AfterSchoolProgramForms"
    ensures key == "" + Concat(["After", "School", "Program", "Forms"])
  {
    WordsFour("After", "School", "Program", "Forms");
  }

  lemma AfterSchoolLabel()
    ensures UpperFirst("") + SpacedWords(["After", "School", "Program", "Forms"]) == " After School Program Forms"
  {
    WordsFour("After", "School", "Program", "Forms");
  }

  lemma AfterSchoolWords()
    ensures CapitalWord("After") && CapitalWord("School") && CapitalWord("Program") && CapitalWord("Forms")
  {
  }

  /** `formatKey("AfterSchoolProgramForms")` in the modal: a key that starts with a capital keeps a leading space. */
  lemma ModalLabelAfterSchoolProgramForms(key: string)
    requires key == "AfterSchoolProgramForms"
    ensures LabelForModal(key) == " After School Program Forms"
  {
    AfterSchoolIsCamel(key);
    AfterSchoolLabel();
    AfterSchoolWords();
    ModalLabelCamel(key, "", ["After", "School", "Program", "Forms"]);
  }

  /** `formatKey("parentFirstName")` in the PDF exports. */
  lemma PdfLabelParentFirstName(key: string)
    requires key == "parentFirstName"
    ensures LabelForPdf(key) == "Parent First Name"
  {
    ParentFirstNameIsCamel(key);
    ParentFirstNameLabel();
    ParentFirstNameWords();
    PdfLabelCamel(key, "parent", ["First", "Name"]);
  }

  /** `formatKey("AfterSchoolProgramForms")` in the PDF exports. */
  lemma PdfLabelAfterSchoolProgramForms(key: string)
    requires key == "AfterSchoolProgramForms"
    ensures LabelForPdf(key) == " After School Program Forms"
  {
    AfterSchoolIsCamel(key);
    AfterSchoolLabel();
    AfterSchoolWords();
    PdfLabelCamel(key, "", ["After", "School", "Program", "Forms"]);
  }
}
