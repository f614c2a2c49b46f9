/** The hyphenated form of the b3 header (section "Single Header" of the B3 Propagation specification), and how
    far the fixed-offset parser departs from it. */
module B3Grammar {
  import opened Hex
  import opened Model
  import opened B3Codec
  import opened B3Theorems

  // ---------------------------------------------------------------------------
  // Separators
  // ---------------------------------------------------------------------------

  /** Position `i` lies between two fields of a header of at least 33 characters. */
  predicate SeparatorAt(h: string, i: nat) {
    |h| >= 33 && i < |h| && (i == Width(h) || i == Width(h) + 17 || i == Width(h) + 19)
  }

  lemma TailSeparators(tail: string, i: nat, c: char, sc: SpanContext)
    requires i < |tail| && (i == 0 || i == 2)
    ensures ParseTail(tail[i := c], sc) == ParseTail(tail, sc)
  {
    var changed := tail[i := c];
    if |tail| == 2 {
      assert changed[1..] == tail[1..];
    } else if |tail| == 19 {
      assert changed[1..2] == tail[1..2];
      assert changed[3..] == tail[3..];
    }
  }

  lemma RestSeparators(rest: string, i: nat, c: char, high: uint64)
    requires |rest| >= 17 && i < |rest| && (i == 16 || i == 33 || i == 35)
    ensures ParseIDs(rest[i := c], high) == ParseIDs(rest, high)
  {
    var changed := rest[i := c];
    assert changed[..16] == rest[..16];
    if |rest| >= 33 {
      assert changed[17..33] == rest[17..33];
      if i == 16 {
        assert changed[33..] == rest[33..];
      } else if ParseUint(rest[..16]).Value? && ParseUint(rest[17..33]).Value? {
        assert changed[33..] == rest[33..][i - 33 := c];
        TailSeparators(rest[33..], i - 33, c,
          BLANK.(traceID := TraceID(high, ParseUint(rest[..16]).value), id := ParseUint(rest[17..33]).value));
      }
    }
  }

  /** The parser looks at no separator, except for the one at index 16: any other may be any character. */
  lemma SeparatorsIgnored(h: string, i: nat, c: char)
    requires SeparatorAt(h, i) && i != 16
    ensures ParseSingle(h[i := c]) == ParseSingle(h)
  {
    var changed := h[i := c];
    if h[16] == '-' {
      RestSeparators(h, i, c, 0);
    } else {
      assert changed[..16] == h[..16];
      if ParseUint(h[..16]).Value? {
        assert changed[16..] == h[16..][i - 16 := c];
        RestSeparators(h[16..], i - 16, c, ParseUint(h[..16]).value);
      }
    }
  }

  // ---------------------------------------------------------------------------
  // The grammar
  // ---------------------------------------------------------------------------

  predicate SamplingField(s: string) {
    s == "d" || s == "1" || s == "0"
  }

  predicate IDField(s: string) {
    |s| == 16 && AllHex(s)
  }

  predicate TraceField(s: string) {
    (|s| == 16 || |s| == 32) && AllHex(s)
  }

  /** A sampling state; or a trace id and a span id, and then perhaps a sampling state, and then perhaps a
      parent id. */
  predicate Fields(pieces: seq<string>) {
    || (|pieces| == 1 && SamplingField(pieces[0]))
    || (&& 2 <= |pieces| <= 4
        && TraceField(pieces[0])
        && IDField(pieces[1])
        && (|pieces| >= 3 ==> SamplingField(pieces[2]))
        && (|pieces| == 4 ==> IDField(pieces[3])))
  }

  /** `h` is such fields, separated by hyphens. */
  ghost predicate Hyphenated(h: string) {
    exists pieces :: Fields(pieces) && h == Join(pieces)
  }

  predicate HyphensBetween(h: string) {
    forall i :: 0 <= i < |h| && SeparatorAt(h, i) ==> h[i] == '-'
  }

  /** What follows the identifiers in a hyphenated header. */
  function Suffix(pieces: seq<string>): string
    requires 2 <= |pieces| <= 4
  {
    if |pieces| == 2 then ""
    else if |pieces| == 3 then "-" + pieces[2]
    else "-" + pieces[2] + "-" + pieces[3]
  }

  lemma SuffixJoins(pieces: seq<string>)
    requires 2 <= |pieces| <= 4
    ensures Suffix(pieces) == if pieces[2..] == [] then "" else "-" + Join(pieces[2..])
  {
    if |pieces| == 3 {
      assert pieces[2..] == [pieces[2]];
    } else if |pieces| == 4 {
      assert pieces[2..] == [pieces[2]] + [pieces[3]];
      JoinFront(pieces[2], [pieces[3]]);
    }
  }

  lemma FirstTwo(pieces: seq<string>)
    requires |pieces| >= 2
    ensures pieces == [pieces[0]] + ([pieces[1]] + pieces[2..])
  {
  }

  lemma JoinFields(pieces: seq<string>)
    requires 2 <= |pieces| <= 4
    ensures Join(pieces) == pieces[0] + "-" + pieces[1] + Suffix(pieces)
  {
    FirstTwo(pieces);
    SuffixJoins(pieces);
    JoinThree(pieces[0], pieces[1], pieces[2..], Suffix(pieces));
  }

  lemma NoFault(h: string)
    ensures ParseSingle(h).Extracted? <==> Fault(h).None? && !ParseSingle(h).OutOfBounds?
  {
    ParseSingleRejects(h);
  }

  /** The fields of a header by position. */
  lemma FieldsAt(pieces: seq<string>)
    requires Fields(pieces) && |pieces| >= 2
    ensures var h, w := Join(pieces), |pieces[0]|;
            && |h| == w + 17 + |Suffix(pieces)|
            && h[..w] == pieces[0] && h[w] == '-'
            && h[w + 1..w + 17] == pieces[1]
            && h[w + 17..] == Suffix(pieces)
            && Width(h) == w
  {
    JoinFields(pieces);
    var h, w := Join(pieces), |pieces[0]|;
    if w == 32 {
      assert h[16] == pieces[0][16];
    }
  }

  lemma SuffixAccepted(h: string, w: nat, pieces: seq<string>)
    requires Fields(pieces) && |pieces| >= 2
    requires |h| >= w + 17 && h[w + 17..] == Suffix(pieces)
    ensures var after := |h| - w - 17;
            && after in {0, 2, 19}
            && (after > 0 ==> h[w + 17] == '-' && KnownByte(h[w + 18]))
            && (after == 19 ==> h[w + 19] == '-' && AllHex(h[w + 20..]))
  {
    var suffix := Suffix(pieces);
    forall k | 0 <= k < |suffix| ensures h[w + 17 + k] == suffix[k] {
      assert h[w + 17..][k] == h[w + 17 + k];
    }
    if |pieces| == 4 {
      assert suffix[3..] == pieces[3];
      assert h[w + 20..] == h[w + 17..][3..];
    }
  }

  lemma HyphenatedAccepted(pieces: seq<string>)
    requires Fields(pieces)
    ensures ParseSingle(Join(pieces)).Extracted? && HyphensBetween(Join(pieces))
  {
    if |pieces| >= 2 {
      var h, w := Join(pieces), |pieces[0]|;
      FieldsAt(pieces);
      SuffixAccepted(h, w, pieces);
      assert TraceReadable(h) by {
        assert h[..16] == pieces[0][..16];
        if w == 32 {
          assert h[16..32] == pieces[0][16..32];
        }
      }
      NoFault(h);
      OutOfBoundsExactly(h);
    }
  }

  /** The fields of an accepted header, read off by position. */
  function FieldsOfHeader(h: string): seq<string>
    requires |h| >= 33 && |h| >= Width(h) + 17
  {
    var w := Width(h);
    [h[..w], h[w + 1..w + 17]]
    + (if |h| > w + 18 then [h[w + 18..w + 19]] else [])
    + (if |h| > w + 20 then [h[w + 20..]] else [])
  }

  lemma AcceptedFields(h: string)
    requires |h| > 1 && ParseSingle(h).Extracted?
    ensures |h| >= 33 && |h| - Width(h) in {17, 19, 36}
    ensures Fields(FieldsOfHeader(h))
  {
    NoFault(h);
    OutOfBoundsExactly(h);
    var w := Width(h);
    if w == 32 {
      assert h[..32] == h[..16] + h[16..32];
    }
    if |h| > w + 18 {
      assert h[w + 18..w + 19] == [h[w + 18]];
    }
  }

  lemma Reassemble(h: string, w: nat)
    requires |h| >= w + 17 && h[w] == '-'
    ensures h[..w] + "-" + h[w + 1..w + 17] + h[w + 17..] == h
  {
    var front, id, tail := h[..w], h[w + 1..w + 17], h[w + 17..];
    assert h[..w + 1] == front + "-";
    assert h[..w + 17] == h[..w + 1] + id;
    assert h == h[..w + 17] + tail;
  }

  lemma ReassembleTail(h: string, at: nat)
    requires at < |h| && h[at] == '-'
    ensures |h| == at + 2 ==> h[at..] == "-" + h[at + 1..at + 2]
    ensures |h| == at + 19 && h[at + 2] == '-' ==> h[at..] == "-" + h[at + 1..at + 2] + "-" + h[at + 3..]
  {
  }

  lemma RejoinFields(h: string)
    requires |h| >= 33 && |h| - Width(h) in {17, 19, 36} && HyphensBetween(h)
    ensures Join(FieldsOfHeader(h)) == h
  {
    var w, pieces := Width(h), FieldsOfHeader(h);
    JoinFields(pieces);
    assert SeparatorAt(h, w);
    Reassemble(h, w);
    if |h| > w + 17 {
      assert SeparatorAt(h, w + 17);
      assert |h| == w + 36 ==> SeparatorAt(h, w + 19);
      ReassembleTail(h, w + 17);
    }
  }

  /** The hyphenated headers are exactly the accepted ones whose separators are hyphens. */
  lemma HyphenatedExactly(h: string)
    ensures Hyphenated(h) <==> ParseSingle(h).Extracted? && HyphensBetween(h)
  {
    if Hyphenated(h) {
      var pieces :| Fields(pieces) && h == Join(pieces);
      HyphenatedAccepted(pieces);
    }
    if ParseSingle(h).Extracted? && HyphensBetween(h) {
      if |h| == 1 {
        NoFault(h);
        assert h == [h[0]];
        assert Fields([h]) && Join([h]) == h;
      } else {
        AcceptedFields(h);
        RejoinFields(h);
      }
    }
  }

  /** A built header is hyphenated exactly when it can be read back: with identifiers, unless a parent id comes
      without a sampling state; without them, if it is a sampling state alone. */
  lemma BuiltIsHyphenated(sc: SpanContext)
    ensures Hyphenated(SingleHeader(sc)) <==>
            if sc.HasIDs() then sc.Decided() || sc.parentID.None? else sc.Decided() && sc.parentID.None?
  {
    ParseBuildSingle(sc);
    HyphenatedExactly(SingleHeader(sc));
    if SingleRoundTrip(sc).Extracted? {
      var pieces := IDPieces(sc) + SamplingPieces(sc) + ParentPieces(sc);
      assert Fields(pieces) && SingleHeader(sc) == Join(pieces);
    }
  }

  /** A header without any hyphen that is accepted: 49 times the same digit. */
  lemma AcceptedWithoutHyphens()
    ensures var h := seq(49, _ => 'a');
            ParseSingle(h).Extracted? && !Hyphenated(h)
  {
    var h := seq(49, _ => 'a');
    NoFault(h);
    OutOfBoundsExactly(h);
    assert SeparatorAt(h, 32);
    HyphenatedExactly(h);
  }

  /** The shortest header the parser indexes out of: 33 times the same digit. */
  lemma OutOfBoundsExample()
    ensures ParseSingle(seq(33, _ => 'a')).OutOfBounds?
  {
    OutOfBoundsExactly(seq(33, _ => 'a'));
  }
}
