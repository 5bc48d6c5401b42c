/** The account grammar of src/wire.rs: a one-pass scanner, proved to accept exactly the names made
    of non-empty alphanumeric segments joined by single separators, two to sixty-four bytes long. */
module AccountId {
  import opened Basics

  datatype Verdict = Valid | WrongLength | EdgeSeparator | ForeignCharacter | AdjacentSeparators

  predicate Separator(b: U8) { b as char == '-' || b as char == '_' || b as char == '.' }

  predicate Alphanumeric(b: U8) { 'a' <= b as char <= 'z' || '0' <= b as char <= '9' }

  // ---------------------------------------------------------------- the grammar

  ghost predicate Segment(s: Bytes) { s != [] && forall i | 0 <= i < |s| :: Alphanumeric(s[i]) }

  /** segment, or segment separator name */
  ghost predicate Name(s: Bytes)
    decreases |s|
  {
    || Segment(s)
    || exists k {:trigger s[k]} :: 0 <= k < |s| && Segment(s[..k]) && Separator(s[k]) && Name(s[k + 1..])
  }

  ghost predicate Account(s: Bytes) { 2 <= |s| <= 64 && Name(s) }

  /** The alphabet: lower-case ASCII letters and digits, and three separators. */
  lemma Alphabet(b: U8)
    ensures Alphanumeric(b) <==> b as char in "abcdefghijklmnopqrstuvwxyz0123456789"
    ensures Separator(b) <==> b as char in "-_."
  {
  }

  // ---------------------------------------------------------------- the scanner's local rules

  predicate AllowedAt(s: Bytes, i: nat)
    requires i < |s|
  {
    (Alphanumeric(s[i]) || Separator(s[i])) && !(i > 0 && Separator(s[i]) && Separator(s[i - 1]))
  }

  /** The first byte that is foreign or follows a separator as a separator. */
  ghost predicate FirstOffence(s: Bytes, i: nat) {
    i < |s| && !AllowedAt(s, i) && forall j | 0 <= j < i :: AllowedAt(s, j)
  }

  ghost predicate Local(s: Bytes) {
    && s != [] && !Separator(s[0]) && !Separator(s[|s| - 1])
    && forall i | 0 <= i < |s| :: AllowedAt(s, i)
  }

  lemma SegmentIsLocal(s: Bytes)
    requires Segment(s)
    ensures Local(s)
  {
    assert Alphanumeric(s[0]) && Alphanumeric(s[|s| - 1]);
  }

  lemma JoinedAllowedAt(segment: Bytes, separator: U8, rest: Bytes, i: nat)
    requires Segment(segment) && Separator(separator) && Local(rest) && i < |segment| + 1 + |rest|
    ensures AllowedAt(segment + [separator] + rest, i)
  {
    var n := |segment|;
    assert Alphanumeric(segment[n - 1]);
    if i < n {
      assert Alphanumeric(segment[i]);
    } else if i > n {
      assert AllowedAt(rest, i - n - 1);
    }
  }

  lemma JoinedIsLocal(segment: Bytes, separator: U8, rest: Bytes)
    requires Segment(segment) && Separator(separator) && Local(rest)
    ensures Local(segment + [separator] + rest)
  {
    var s := segment + [separator] + rest;
    assert s[0] == segment[0] && Alphanumeric(segment[0]) && s[|s| - 1] == rest[|rest| - 1];
    hide Segment, AllowedAt;
    forall i | 0 <= i < |s| ensures AllowedAt(s, i) { JoinedAllowedAt(segment, separator, rest, i); }
  }

  lemma {:induction false} NameIsLocal(s: Bytes)
    requires Name(s)
    ensures Local(s)
    decreases |s|
  {
    hide Segment, Local, Separator;
    if Segment(s) {
      SegmentIsLocal(s);
    } else {
      var k :| 0 <= k < |s| && Segment(s[..k]) && Separator(s[k]) && Name(s[k + 1..]);
      NameIsLocal(s[k + 1..]);
      JoinedIsLocal(s[..k], s[k], s[k + 1..]);
      assert s == s[..k] + [s[k]] + s[k + 1..];
    }
  }

  lemma {:induction false} LocalIsName(s: Bytes, k: nat)
    requires Local(s) && k <= |s| && forall i | 0 <= i < k :: Alphanumeric(s[i])
    ensures Name(s)
    decreases |s|, |s| - k
  {
    if k < |s| && Separator(s[k]) {
      var rest := s[k + 1..];
      assert AllowedAt(s, k + 1);
      forall i | 0 <= i < |rest| ensures AllowedAt(rest, i) { assert AllowedAt(s, i + k + 1); }
      assert rest[|rest| - 1] == s[|s| - 1];
      LocalIsName(rest, 0);
      assert Segment(s[..k]) && Separator(s[k]) && Name(s[k + 1..]);
    } else if k < |s| {
      assert AllowedAt(s, k);
      LocalIsName(s, k + 1);
    }
  }

  /** The scanner accepts exactly the accounts of the grammar; a rejected name is reported by its
      length, then its edges, then its first offending byte. */
  method ValidateAccountId(s: Bytes) returns (verdict: Verdict)
    ensures verdict == Valid <==> Account(s)
    ensures verdict == WrongLength <==> !(2 <= |s| <= 64)
    ensures verdict == EdgeSeparator <==> 2 <= |s| <= 64 && (Separator(s[0]) || Separator(s[|s| - 1]))
    ensures verdict == ForeignCharacter ==> exists i: nat :: FirstOffence(s, i) && !Separator(s[i])
    ensures verdict == AdjacentSeparators ==> exists i: nat :: FirstOffence(s, i) && Separator(s[i])
  {
    if Name(s) { NameIsLocal(s); }
    if !(2 <= |s| <= 64) {
      return WrongLength;
    }
    if Separator(s[0]) || Separator(s[|s| - 1]) {
      return EdgeSeparator;
    }
    var previousWasSeparator := false;
    for i := 0 to |s|
      invariant forall j | 0 <= j < i :: AllowedAt(s, j)
      invariant previousWasSeparator == (i > 0 && Separator(s[i - 1]))
    {
      if !(Alphanumeric(s[i]) || Separator(s[i])) {
        assert FirstOffence(s, i);
        return ForeignCharacter;
      }
      if Separator(s[i]) && previousWasSeparator {
        assert FirstOffence(s, i);
        return AdjacentSeparators;
      }
      previousWasSeparator := Separator(s[i]);
    }
    LocalIsName(s, 0);
    return Valid;
  }
}
