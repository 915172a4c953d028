/**
 Keyword handling of the issue bot: parsing the comma-separated list the
 language model returns (`extract_keywords_from_question`) and the two ways
 `search_related_issues` joins the resulting list, once as the search query
 and once for display in the reply.
 */
module Keywords {
  import opened Text

  /** What a parsed keyword looks like: non-empty, no surrounding whitespace,
      no comma. */
  predicate IsKeyword(k: string) {
    k != "" && Stripped(k) && ',' !in k
  }

  /** The test `if kw.strip()` of the comprehension: something is left after
      stripping, that is, not every character is whitespace. */
  predicate NonBlank(p: string) {
    !AllSpace(p)
  }

  /** The stripped pieces that are not empty, in order. */
  function KeepNonEmpty(pieces: seq<string>): (r: seq<string>)
    ensures |r| <= |pieces|
    ensures forall i :: 0 <= i < |r| ==> r[i] != "" && Stripped(r[i])
    decreases |pieces|
  {
    if |pieces| == 0 then []
    else
      StripEmptyIffAllSpace(pieces[0]);
      (if NonBlank(pieces[0]) then [Strip(pieces[0])] else []) + KeepNonEmpty(pieces[1..])
  }

  lemma {:induction false} KeepNoComma(pieces: seq<string>)
    requires forall p :: p in pieces ==> ',' !in p
    ensures forall k :: k in KeepNonEmpty(pieces) ==> ',' !in k
    decreases |pieces|
  {
    if |pieces| > 0 {
      assert pieces[0] in pieces;
      StripKeepsAbsent(pieces[0], ',');
      KeepNoComma(pieces[1..]);
    }
  }

  /** `[kw.strip() for kw in s.split(',') if kw.strip()]`: the keywords of
      the model's raw reply. */
  function ParseKeywords(raw: string): (r: seq<string>)
    ensures forall k :: k in r ==> IsKeyword(k)
  {
    var pieces := Split(raw, ',');
    KeepNoComma(pieces);
    KeepNonEmpty(pieces)
  }

  /** The positions `j >= from` of `pieces` whose stripped text is
      non-empty, in increasing order. */
  function KeptFrom(pieces: seq<string>, from: nat): (idx: seq<nat>)
    requires from <= |pieces|
    ensures forall t :: 0 <= t < |idx| ==> from <= idx[t] < |pieces| && NonBlank(pieces[idx[t]])
    ensures forall t, u :: 0 <= t < u < |idx| ==> idx[t] < idx[u]
    ensures forall j :: from <= j < |pieces| && NonBlank(pieces[j]) ==> j in idx
    decreases |pieces| - from
  {
    if from == |pieces| then []
    else
      var rest := KeptFrom(pieces, from + 1);
      if NonBlank(pieces[from]) then [from] + rest else rest
  }

  /** The kept positions are paired one to one, in order, with what
      `KeepNonEmpty` keeps of `pieces[from..]`. */
  lemma {:induction false} KeptFromMatchesKeep(pieces: seq<string>, from: nat)
    requires from <= |pieces|
    ensures var idx := KeptFrom(pieces, from);
            && |idx| == |KeepNonEmpty(pieces[from..])|
            && forall t :: 0 <= t < |idx| ==> KeepNonEmpty(pieces[from..])[t] == Strip(pieces[idx[t]])
    decreases |pieces| - from
  {
    if from < |pieces| {
      KeptFromMatchesKeep(pieces, from + 1);
      var rest := KeptFrom(pieces, from + 1);
      var keepRest := KeepNonEmpty(pieces[from + 1..]);
      assert pieces[from..] == [pieces[from]] + pieces[from + 1..];
      if NonBlank(pieces[from]) {
        KeepNonEmptyCons(pieces[from], pieces[from + 1..]);
        assert KeepNonEmpty(pieces[from..]) == [Strip(pieces[from])] + keepRest;
        assert KeptFrom(pieces, from) == [from] + rest;
        PairingCons(pieces, from, rest, keepRest);
      } else {
        KeepNonEmptyConsBlank(pieces[from], pieces[from + 1..]);
        assert KeptFrom(pieces, from) == rest;
      }
    }
  }

  /** A kept position in front of a pairing of positions with kept pieces
      extends the pairing by one. */
  lemma PairingCons(pieces: seq<string>, from: nat, rest: seq<nat>, keepRest: seq<string>)
    requires from < |pieces| && |rest| == |keepRest|
    requires forall t :: 0 <= t < |rest| ==> rest[t] < |pieces| && keepRest[t] == Strip(pieces[rest[t]])
    ensures var idx, keep := [from] + rest, [Strip(pieces[from])] + keepRest;
            forall t :: 0 <= t < |idx| ==> idx[t] < |pieces| && keep[t] == Strip(pieces[idx[t]])
  {
    var idx, keep := [from] + rest, [Strip(pieces[from])] + keepRest;
    forall t | 1 <= t < |idx|
      ensures idx[t] < |pieces| && keep[t] == Strip(pieces[idx[t]])
    {
      assert idx[t] == rest[t - 1] && keep[t] == keepRest[t - 1];
    }
  }

  /** Parsing keeps exactly the stripped non-empty comma-separated pieces of
      the input, in input order, and drops nothing else. */
  lemma ParseKeepsNonEmptyPieces(raw: string)
    ensures var pieces := Split(raw, ',');
            var kws := ParseKeywords(raw);
            var idx := KeptFrom(pieces, 0);
            && |idx| == |kws|
            && (forall t :: 0 <= t < |idx| ==> idx[t] < |pieces| && kws[t] == Strip(pieces[idx[t]]))
            && (forall t, u :: 0 <= t < u < |idx| ==> idx[t] < idx[u])
            && (forall j :: 0 <= j < |pieces| ==> (NonBlank(pieces[j]) <==> j in idx))
  {
    var pieces := Split(raw, ',');
    KeptFromMatchesKeep(pieces, 0);
    assert pieces[0..] == pieces;
  }

  /** `"A, B ,C,"` parses to `["A", "B", "C"]`. */
  lemma ParseExample()
    ensures ParseKeywords("A, B ,C,") == ["A", "B", "C"]
  {
    var pieces := ["A", " B ", "C", ""];
    assert Join(pieces, [',']) == "A, B ,C," by {
      assert Join(pieces[3..], [',']) == "";
      assert Join(pieces[2..], [',']) == "C,";
      assert Join(pieces[1..], [',']) == " B ,C,";
    }
    SplitJoin(pieces, ',');
    KeepExampleABC();
  }

  // The three steps of the example's filtering, one piece at a time.

  lemma KeepExampleC()
    ensures KeepNonEmpty(["C", ""]) == ["C"]
  {
    assert KeepNonEmpty([""]) == [] by {
      assert !NonBlank("");
    }
    StripOfStripped("C");
    assert "C"[0] == 'C';
    KeepNonEmptyCons("C", [""]);
  }

  lemma KeepExampleBC()
    ensures KeepNonEmpty([" B ", "C", ""]) == ["B", "C"]
  {
    KeepExampleC();
    StripPadded(" ", "B", " ");
    assert " " + "B" + " " == " B ";
    assert " B "[1] == 'B';
    KeepNonEmptyCons(" B ", ["C", ""]);
  }

  lemma KeepExampleABC()
    ensures KeepNonEmpty(["A", " B ", "C", ""]) == ["A", "B", "C"]
  {
    KeepExampleBC();
    StripOfStripped("A");
    assert "A"[0] == 'A';
    KeepNonEmptyCons("A", [" B ", "C", ""]);
  }

  lemma KeepNonEmptyCons(x: string, rest: seq<string>)
    requires NonBlank(x)
    ensures KeepNonEmpty([x] + rest) == [Strip(x)] + KeepNonEmpty(rest)
  {
    assert ([x] + rest)[1..] == rest;
  }

  lemma KeepNonEmptyConsBlank(x: string, rest: seq<string>)
    requires !NonBlank(x)
    ensures KeepNonEmpty([x] + rest) == KeepNonEmpty(rest)
  {
    assert ([x] + rest)[1..] == rest;
  }

  /** `' '.join(keywords)`: the query sent to the issue search. */
  function SearchQuery(kws: seq<string>): string {
    Join(kws, " ")
  }

  /** `', '.join(keywords)`: the keyword line shown in the reply. */
  function KeywordDisplay(kws: seq<string>): string {
    Join(kws, ", ")
  }

  /** The query splits back into the keywords at single spaces when no
      keyword holds a space. A keyword with a space inside runs together
      with its neighbours: the search cannot tell the keywords apart. */
  lemma QuerySplitsBack(kws: seq<string>)
    requires kws != []
    requires forall k :: k in kws ==> ' ' !in k
    ensures Split(SearchQuery(kws), ' ') == kws
  {
    SplitJoin(kws, ' ');
  }

  /** The displayed keyword line parses back to the same keywords: display
      and parsing are inverse on keyword lists. */
  lemma {:induction false} DisplayRoundTrip(kws: seq<string>)
    requires forall k :: k in kws ==> IsKeyword(k)
    ensures ParseKeywords(KeywordDisplay(kws)) == kws
  {
    if |kws| == 0 {
      assert Split("", ',') == [""] by {
        SplitFree("", ',');
      }
      StripOfStripped("");
    } else {
      var pieces := [kws[0]] + Spaced(kws[1..]);
      JoinSpaced(kws);
      SpacedNoComma(kws);
      SplitJoin(pieces, ',');
      assert kws[0] in kws;
      StripOfStripped(kws[0]);
      assert NonBlank(kws[0]) by {
        StripEmptyIffAllSpace(kws[0]);
      }
      KeepNonEmptyCons(kws[0], Spaced(kws[1..]));
      KeepSpaced(kws[1..]);
      assert [kws[0]] + kws[1..] == kws;
    }
  }

  lemma SpacedNoComma(kws: seq<string>)
    requires |kws| >= 1
    requires forall k :: k in kws ==> IsKeyword(k)
    ensures forall p :: p in [kws[0]] + Spaced(kws[1..]) ==> ',' !in p
  {
    assert kws[0] in kws;
    forall p | p in Spaced(kws[1..])
      ensures ',' !in p
    {
      var i :| 0 <= i < |kws| - 1 && p == " " + kws[1..][i];
      assert kws[i + 1] in kws;
    }
  }

  /** Every string of `t` with one space in front. */
  function Spaced(t: seq<string>): seq<string>
  {
    seq(|t|, i requires 0 <= i < |t| => " " + t[i])
  }

  lemma {:induction false} JoinSpaced(kws: seq<string>)
    requires |kws| >= 1
    ensures KeywordDisplay(kws) == Join([kws[0]] + Spaced(kws[1..]), [','])
    decreases |kws|
  {
    var pieces := [kws[0]] + Spaced(kws[1..]);
    if |kws| > 1 {
      JoinSpaced(kws[1..]);
      var t := kws[1..];
      assert [t[0]] + Spaced(t[1..]) == [t[0]] + Spaced(kws[2..]);
      assert pieces[1..] == Spaced(t);
      // Join of the spaced tail is one space followed by the tail's display
      assert Join(Spaced(t), [',']) == " " + Join(t, ", ") by {
        JoinSpacedTail(t);
      }
    }
  }

  lemma {:induction false} JoinSpacedTail(t: seq<string>)
    requires |t| >= 1
    ensures Join(Spaced(t), [',']) == " " + Join(t, ", ")
    decreases |t|
  {
    if |t| > 1 {
      JoinSpacedTail(t[1..]);
      assert Spaced(t)[1..] == Spaced(t[1..]);
    }
  }

  lemma {:induction false} KeepSpaced(t: seq<string>)
    requires forall k :: k in t ==> IsKeyword(k)
    ensures KeepNonEmpty(Spaced(t)) == t
    decreases |t|
  {
    if |t| > 0 {
      assert t[0] in t;
      StripPadded(" ", t[0], "");
      assert " " + t[0] + "" == " " + t[0];
      assert Spaced(t)[1..] == Spaced(t[1..]);
      KeepSpaced(t[1..]);
      assert [t[0]] + t[1..] == t;
    }
  }

  /** Parsing is idempotent through the displayed line. */
  lemma ParseDisplayIdempotent(raw: string)
    ensures ParseKeywords(KeywordDisplay(ParseKeywords(raw))) == ParseKeywords(raw)
  {
    DisplayRoundTrip(ParseKeywords(raw));
  }

  /** `s` without any comma. */
  function RemoveCommas(s: string): (r: string)
    ensures ',' !in r
    ensures ',' !in s ==> r == s
    decreases |s|
  {
    if |s| == 0 then ""
    else
      var rest := RemoveCommas(s[1..]);
      if s[0] == ',' then rest
      else
        assert [s[0]] + s[1..] == s;
        [s[0]] + rest
  }

  lemma {:induction false} RemoveCommasConcat(a: string, b: string)
    ensures RemoveCommas(a + b) == RemoveCommas(a) + RemoveCommas(b)
    decreases |a|
  {
    if |a| > 0 {
      assert (a + b)[1..] == a[1..] + b;
      RemoveCommasConcat(a[1..], b);
    } else {
      assert a + b == b;
    }
  }

  /** The search query and the displayed line come from the same list: the
      query is the displayed line with its commas deleted. */
  lemma {:induction false} QueryIsDisplayWithoutCommas(kws: seq<string>)
    requires forall k :: k in kws ==> ',' !in k
    ensures RemoveCommas(KeywordDisplay(kws)) == SearchQuery(kws)
    decreases |kws|
  {
    if |kws| > 1 {
      assert kws[0] in kws;
      QueryIsDisplayWithoutCommas(kws[1..]);
      RemoveCommasConcat(kws[0] + ", ", Join(kws[1..], ", "));
      RemoveCommasConcat(kws[0], ", ");
      assert RemoveCommas(", ") == " ";
    } else if |kws| == 1 {
      assert kws[0] in kws;
    }
  }
}
