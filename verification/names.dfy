/** The name-list parser shared by both places in `App` that read the text
    area: split on commas, trim each piece, drop empty pieces. */
module NameList {
  import opened Text

  const Separator: char := ','

  /** What the parser can produce: a non-empty, trimmed, comma-free string. */
  predicate IsName(s: string) {
    s != [] && Separator !in s && IsTrimmed(s)
  }

  /** `.map(name => name.trim())` */
  function TrimAll(pieces: seq<string>): seq<string> {
    if pieces == [] then [] else [Trim(pieces[0])] + TrimAll(pieces[1..])
  }

  /** `.filter(name => name !== '')`: keeps the non-empty pieces in order. */
  function DropEmpty(pieces: seq<string>): (kept: seq<string>)
    ensures |kept| <= |pieces|
    ensures forall i :: 0 <= i < |kept| ==> kept[i] != [] && kept[i] in pieces
  {
    if pieces == [] then []
    else if pieces[0] == [] then DropEmpty(pieces[1..])
    else [pieces[0]] + DropEmpty(pieces[1..])
  }

  /** Every trimmed piece is trimmed and keeps the comma-freedom of its piece. */
  lemma {:induction false} TrimAllFacts(pieces: seq<string>)
    requires forall i :: 0 <= i < |pieces| ==> Separator !in pieces[i]
    ensures |TrimAll(pieces)| == |pieces|
    ensures forall i :: 0 <= i < |pieces| ==>
      IsTrimmed(TrimAll(pieces)[i]) && Separator !in TrimAll(pieces)[i]
  {
    if pieces != [] {
      TrimAllFacts(pieces[1..]);
      TrimSpec(pieces[0]);
      if Separator in Trim(pieces[0]) {
        TrimKeepsCharacters(pieces[0], Separator);
      }
    }
  }

  /** `names.split(',').map(name => name.trim()).filter(name => name !== '')`
      (App.jsx lines 97 and 120): every result is a name, and there are at
      most one more names than commas. */
  function ParseNames(text: string): (names: seq<string>)
    ensures forall i :: 0 <= i < |names| ==> IsName(names[i])
    ensures |names| <= Count(text, Separator) + 1
  {
    var pieces := Split(text, Separator);
    TrimAllFacts(pieces);
    DropEmpty(TrimAll(pieces))
  }

  // ---------------------------------------------------------------------------
  // Characterisation of the parser

  lemma {:induction false} TrimAllAppend(xs: seq<string>, ys: seq<string>)
    ensures TrimAll(xs + ys) == TrimAll(xs) + TrimAll(ys)
  {
    if xs != [] {
      assert (xs + ys)[1..] == xs[1..] + ys;
      TrimAllAppend(xs[1..], ys);
    } else {
      assert xs + ys == ys;
    }
  }

  lemma {:induction false} DropEmptyAppend(xs: seq<string>, ys: seq<string>)
    ensures DropEmpty(xs + ys) == DropEmpty(xs) + DropEmpty(ys)
  {
    if xs != [] {
      assert (xs + ys)[1..] == xs[1..] + ys;
      DropEmptyAppend(xs[1..], ys);
      if xs[0] == [] {
        assert DropEmpty(xs + ys) == DropEmpty(xs[1..] + ys);
      } else {
        assert DropEmpty(xs + ys) == [xs[0]] + DropEmpty(xs[1..] + ys);
      }
    } else {
      assert xs + ys == ys;
    }
  }

  /** The filter on one piece: an empty piece goes, any other stays. */
  lemma DropEmptyUnit(x: string)
    ensures DropEmpty([x]) == if x == [] then [] else [x]
  {
  }

  /** The filter keeps every non-empty piece as often as it occurs, and never
      the empty one. */
  lemma {:induction false} DropEmptyCounts(pieces: seq<string>)
    ensures multiset(DropEmpty(pieces))[[]] == 0
    ensures forall x :: x != [] ==> multiset(DropEmpty(pieces))[x] == multiset(pieces)[x]
  {
    if pieces != [] {
      DropEmptyCounts(pieces[1..]);
      assert pieces == [pieces[0]] + pieces[1..];
      assert multiset(pieces) == multiset([pieces[0]]) + multiset(pieces[1..]);
      if pieces[0] != [] {
        assert multiset(DropEmpty(pieces)) == multiset([pieces[0]]) + multiset(DropEmpty(pieces[1..]));
      }
    }
  }

  /** Parsing distributes over a comma: the names of `a + "," + b` are the
      names of `a` followed by the names of `b`. Hence order is kept and
      duplicates are not merged. */
  lemma ParseAppend(a: string, b: string)
    ensures ParseNames(a + [Separator] + b) == ParseNames(a) + ParseNames(b)
  {
    SplitAppend(a, b, Separator);
    TrimAllAppend(Split(a, Separator), Split(b, Separator));
    DropEmptyAppend(TrimAll(Split(a, Separator)), TrimAll(Split(b, Separator)));
  }

  /** A comma-free text is one piece: it parses to its trimmed form, or to
      nothing when that is empty. */
  lemma ParsePiece(s: string)
    requires Separator !in s
    ensures ParseNames(s) == if Trim(s) == [] then [] else [Trim(s)]
  {
    SplitWithoutSeparator(s, Separator);
    assert TrimAll([s]) == [Trim(s)];
  }

  /** Writing a list of names out comma-separated and parsing it back gives
      the same list, duplicates and order included. */
  lemma {:induction false} ParseJoin(names: seq<string>)
    requires forall i :: 0 <= i < |names| ==> IsName(names[i])
    ensures ParseNames(Join(names, Separator)) == names
  {
    if names == [] {
      assert Split([], Separator) == [[]];
      assert TrimAll([[]]) == [Trim([])];
      TrimEmptyIff([]);
    } else {
      ParsePiece(names[0]);
      TrimFixedPoint(names[0]);
      if |names| > 1 {
        ParseJoin(names[1..]);
        ParseAppend(names[0], Join(names[1..], Separator));
        assert names == [names[0]] + names[1..];
      }
    }
  }

  /** Text made only of commas and white space. */
  predicate IsBlank(text: string) {
    forall i :: 0 <= i < |text| ==> text[i] == Separator || IsWhitespace(text[i])
  }

  lemma BlankAppend(a: string, b: string)
    ensures IsBlank(a + [Separator] + b) <==> IsBlank(a) && IsBlank(b)
  {
    var text := a + [Separator] + b;
    if IsBlank(text) {
      forall i | 0 <= i < |a| ensures a[i] == Separator || IsWhitespace(a[i]) {
        assert a[i] == text[i];
      }
      forall i | 0 <= i < |b| ensures b[i] == Separator || IsWhitespace(b[i]) {
        assert b[i] == text[|a| + 1 + i];
      }
    }
    if IsBlank(a) && IsBlank(b) {
      forall i | 0 <= i < |text| ensures text[i] == Separator || IsWhitespace(text[i]) {
        if i < |a| {
          assert text[i] == a[i];
        } else if i > |a| {
          assert text[i] == b[i - |a| - 1];
        }
      }
    }
  }

  /** Blank text parses to the empty list, and only blank text does. */
  lemma {:induction false} ParseEmptyIff(text: string)
    ensures ParseNames(text) == [] <==> IsBlank(text)
    decreases |text|
  {
    if Separator in text {
      var k :| 0 <= k < |text| && text[k] == Separator;
      var a, b := text[..k], text[k + 1..];
      assert text == a + [Separator] + b;
      ParseAppend(a, b);
      ParseEmptyIff(a);
      ParseEmptyIff(b);
      BlankAppend(a, b);
    } else {
      ParsePiece(text);
      TrimEmptyIff(text);
    }
  }

  lemma {:induction false} TrimStartPadded(pad: string, name: string)
    requires AllWhitespace(pad)
    requires name == [] || !IsWhitespace(name[0])
    ensures TrimStart(pad + name) == name
  {
    if pad != [] {
      assert (pad + name)[1..] == pad[1..] + name;
      TrimStartPadded(pad[1..], name);
    }
  }

  /** White space before a name is trimmed away. */
  lemma TrimPadded(pad: string, name: string)
    requires AllWhitespace(pad)
    requires IsName(name)
    ensures Trim(pad + name) == name
  {
    TrimStartPadded(pad, name);
    TrimFixedPoint(name);
    assert TrimStart(name) == name;
  }

  /** `names.join(", ")`, the way the initial text area content is written:
      the names joined by commas, each but the first after one space. */
  function Listing(names: seq<string>): string {
    if names == [] then [] else Join([names[0]] + Spaced(names[1..]), Separator)
  }

  /** The names, each with one space in front. */
  function Spaced(names: seq<string>): (pieces: seq<string>)
    ensures |pieces| == |names|
  {
    if names == [] then [] else [" " + names[0]] + Spaced(names[1..])
  }

  lemma {:induction false} SpacedFacts(names: seq<string>)
    requires forall i :: 0 <= i < |names| ==> IsName(names[i])
    ensures forall i :: 0 <= i < |names| ==> Separator !in Spaced(names)[i]
    ensures TrimAll(Spaced(names)) == names
  {
    if names != [] {
      SpacedFacts(names[1..]);
      TrimPadded(" ", names[0]);
      assert names == [names[0]] + names[1..];
    }
  }

  lemma {:induction false} DropEmptyKeepsNames(names: seq<string>)
    requires forall i :: 0 <= i < |names| ==> IsName(names[i])
    ensures DropEmpty(names) == names
  {
    if names != [] {
      DropEmptyKeepsNames(names[1..]);
      assert names == [names[0]] + names[1..];
    }
  }

  /** A list of names written out as `a, b, c` parses back to the list. */
  lemma ParseListing(names: seq<string>)
    requires forall i :: 0 <= i < |names| ==> IsName(names[i])
    ensures ParseNames(Listing(names)) == names
  {
    if names == [] {
      ParseJoin(names);
    } else {
      var spaced := Spaced(names[1..]);
      var ps := [names[0]] + spaced;
      SpacedFacts(names[1..]);
      assert forall i :: 0 <= i < |ps| ==> Separator !in ps[i] by {
        forall i | 0 <= i < |ps| ensures Separator !in ps[i] {
          if i > 0 {
            assert ps[i] == spaced[i - 1];
          }
        }
      }
      SplitJoin(ps, Separator);
      TrimFixedPoint(names[0]);
      assert TrimAll([names[0]]) == [names[0]];
      TrimAllAppend([names[0]], spaced);
      assert TrimAll(ps) == names;
      DropEmptyKeepsNames(names);
    }
  }
}
