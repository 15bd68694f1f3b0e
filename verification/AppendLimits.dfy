/** Which records the memory runtime takes, and what trimming leaves of a kind. */
module AppendLimits {
  import opened Bytes
  import opened HyperMemorySpec
  import opened HyperMemory
  import opened FrameSizes

  /** Blank at either end. */
  predicate Bare(s: Text) {
    s == [] || (!White(s[0]) && !White(s[|s| - 1]))
  }

  predicate AllWhite(s: Text) {
    forall i :: 0 <= i < |s| ==> White(s[i])
  }

  lemma {:induction false} StartTrimmed(s: Text) returns (i: nat)
    ensures i <= |s| && TrimStart(s) == s[i..] && AllWhite(s[..i]) && (i < |s| ==> !White(s[i]))
  {
    hide White;
    i := 0;
    if s != [] && White(s[0]) {
      var j := StartTrimmed(s[1..]);
      i := j + 1;
      assert s[i..] == s[1..][j..];
      assert forall k :: 1 <= k < i ==> s[k] == s[1..][..j][k - 1];
    }
  }

  lemma {:induction false} EndTrimmed(s: Text) returns (j: nat)
    ensures j <= |s| && TrimEnd(s) == s[..j] && AllWhite(s[j..]) && (j > 0 ==> !White(s[j - 1]))
    decreases |s|
  {
    hide White;
    j := |s|;
    if s != [] && White(s[|s| - 1]) {
      j := EndTrimmed(s[..|s| - 1]);
      assert s[..j] == s[..|s| - 1][..j];
      assert s[j..] == s[..|s| - 1][j..] + [s[|s| - 1]];
    } else {
      assert s[..j] == s;
    }
  }

  /** Trimming takes white space off both ends and nothing else. */
  lemma TrimExact(s: Text) returns (i: nat, j: nat)
    ensures i <= j <= |s| && Trim(s) == s[i..j] && Bare(Trim(s)) && AllWhite(s[..i]) && AllWhite(s[j..])
  {
    hide White, TrimStart, TrimEnd;
    i := StartTrimmed(s);
    var rest := s[i..];
    var n := EndTrimmed(rest);
    j := i + n;
    assert rest[..n] == s[i..j] && rest[n..] == s[j..];
  }

  /** The white space of the language: not the next-line control, the zero-width space or the Mongolian
      separator, but the byte order mark. */
  lemma WhiteSpace()
    ensures White(0x20) && White(0x09) && White(0x0a) && White(0x0d) && White(0xa0) && White(0xfeff) && White(0x2028)
    ensures White(0x2000) && White(0x200a) && White(0x1680) && White(0x202f) && White(0x205f) && White(0x3000) && White(0x2029)
    ensures !White(0x85) && !White(0x200b) && !White(0x180e) && !White(0x1f) && !White(0x08) && !White(0x0e) && !White(0x1fff)
  {
  }

  /** An append is taken exactly when the runtime is enabled and running, the trimmed kind has 1 to 128 code
      units, and its UTF-8 form, the payload and 64 bytes fit the capacity. */
  lemma AppendTaken(enabled: bool, running: bool, kind: Text, payloadBytes: nat, capacity: nat, next: int)
    ensures var status := AppendStatus(enabled, running, kind, payloadBytes, capacity, next);
      && (status.Accepted? <==>
            && enabled && running && 1 <= |Trim(kind)| <= 128
            && 64 + |Utf8(Trim(kind))| + payloadBytes <= capacity)
      && (status.Accepted? ==> status.sequence == next)
      && (!enabled <==> status == ErrDisabled)
  {
    hide Trim, Utf8, Utf8Length;
    LengthIsUtf8(Trim(kind));
  }

  /** Recovery accepts only snapshots whose records are numbered upwards from one or more, with the next number
      a safe integer, and whose payloads have the length and the digest they state. */
  lemma {:induction false} AcceptedOrdered(c: Codec, s: Snapshot, i: nat, j: nat)
    requires HyperMemory.Accepts(c, s) && i <= j < |s.body.records|
    ensures 1 <= s.body.records[i].sequence <= s.body.records[j].sequence <= 9_007_199_254_740_991
    ensures i < j ==> s.body.records[i].sequence < s.body.records[j].sequence
    ensures 1 <= s.body.next <= 9_007_199_254_740_991 && s.body.schemaOk
    decreases j
  {
    assert PersistedAt(c, s.body.records, j);
    if j > 0 {
      AcceptedOrdered(c, s, if i < j then i else j - 1, j - 1);
    }
  }
}
