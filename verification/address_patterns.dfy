/**
 * The two input patterns of the registration endpoint, as predicates over ASCII strings:
 * the domain pattern `^[a-zA-Z0-9][a-zA-Z0-9-]{0,61}[a-zA-Z0-9](?:\.[a-zA-Z]{2,})+$` and the
 * wallet pattern `^0x[a-fA-F0-9]{40}$`.
 *
 * The domain predicate follows the pattern's own structure (a split point for the first
 * part, and one length per `\.[a-zA-Z]{2,}` group); it is proved equal to the reading by
 * labels: the text split at dots has at least two labels, the first a host label and every
 * other one two or more letters.
 */
module AddressPatterns {
  import opened Text

  predicate IsAsciiLetter(c: char) { 'a' <= c <= 'z' || 'A' <= c <= 'Z' }

  predicate IsAlnum(c: char) { IsAsciiLetter(c) || IsDigit(c) }

  predicate IsHexDigit(c: char) { IsDigit(c) || 'a' <= c <= 'f' || 'A' <= c <= 'F' }

  predicate AllLetters(s: string) { forall i | 0 <= i < |s| :: IsAsciiLetter(s[i]) }

  /** `[a-zA-Z0-9][a-zA-Z0-9-]{0,61}[a-zA-Z0-9]` matches the whole of `p`. */
  predicate HostLabel(p: string)
  {
    && 2 <= |p| <= 63
    && IsAlnum(p[0]) && IsAlnum(p[|p| - 1])
    && forall i | 1 <= i < |p| - 1 :: IsAlnum(p[i]) || p[i] == '-'
  }

  /** `(?:\.[a-zA-Z]{2,})+` matches the whole of `t`: a dot, a run of `n` >= 2 letters, and
      either the end or another such group. */
  predicate TldGroups(t: string)
    decreases |t|, 1
  {
    |t| >= 3 && t[0] == '.' && exists n | 2 <= n <= |t| - 1 :: GroupOf(t, n)
  }

  /** The first group of `t` takes `n` letters. */
  predicate GroupOf(t: string, n: int)
    decreases |t|, 0
  {
    && 2 <= n <= |t| - 1
    && AllLetters(t[1..1 + n])
    && (1 + n == |t| || TldGroups(t[1 + n..]))
  }

  /** The domain pattern of the registration endpoint matches the whole of `s`. */
  predicate IsValidDomain(s: string)
  {
    exists k | 2 <= k <= 63 && k < |s| :: HostLabel(s[..k]) && TldGroups(s[k..])
  }

  /** The wallet pattern: `0x` and forty hexadecimal digits of either case. */
  predicate IsValidWallet(w: string)
  {
    |w| == 42 && w[0] == '0' && w[1] == 'x' && forall i | 2 <= i < 42 :: IsHexDigit(w[i])
  }

  // ---------------------------------------------------------------- labels

  /** The length of the part of `s` before its first dot. */
  function UntilDot(s: string): (n: nat)
    ensures n <= |s| && '.' !in s[..n]
    ensures n < |s| ==> s[n] == '.'
  {
    if s == [] || s[0] == '.' then 0 else 1 + UntilDot(s[1..])
  }

  /** `s.split('.')`. */
  function Labels(s: string): (r: seq<string>)
    ensures |r| >= 1
    ensures r[0] == s[..UntilDot(s)]
    decreases |s|
  {
    var n := UntilDot(s);
    if n == |s| then [s] else [s[..n]] + Labels(s[n + 1..])
  }

  predicate TldLabels(ls: seq<string>)
  {
    forall i | 0 <= i < |ls| :: |ls[i]| >= 2 && AllLetters(ls[i])
  }

  /** The first dot of `s` is at `k` when `s[..k]` has none and `s[k]` is one. */
  lemma {:induction false} UntilDotAt(s: string, k: nat)
    requires k <= |s| && '.' !in s[..k]
    requires k < |s| ==> s[k] == '.'
    ensures UntilDot(s) == k
  {
  }

  lemma {:induction false} LabelsAfterDot(u: string)
    requires UntilDot(u) < |u|
    ensures Labels(u) == [u[..UntilDot(u)]] + Labels(u[UntilDot(u) + 1..])
  {
    var n := UntilDot(u);
    assert n != |u|;
  }

  lemma TldLabelsCons(a: string, rest: seq<string>)
    ensures TldLabels([a] + rest) <==> |a| >= 2 && AllLetters(a) && TldLabels(rest)
  {
    if |a| >= 2 && AllLetters(a) && TldLabels(rest) {
      forall i | 1 <= i < |[a] + rest|
        ensures |([a] + rest)[i]| >= 2 && AllLetters(([a] + rest)[i])
      {
        assert ([a] + rest)[i] == rest[i - 1];
      }
    }
    if TldLabels([a] + rest) {
      assert ([a] + rest)[0] == a;
      forall i | 0 <= i < |rest|
        ensures |rest[i]| >= 2 && AllLetters(rest[i])
      {
        assert ([a] + rest)[i + 1] == rest[i];
      }
    }
  }

  /** A group can only end where the letters end: at the first dot after the leading one,
      or at the end of the text. */
  lemma GroupEndsAtDot(t: string, m: int)
    requires |t| >= 1 && t[0] == '.'
    requires GroupOf(t, m)
    ensures m == UntilDot(t[1..])
  {
    var u := t[1..];
    assert forall i | 0 <= i < m :: u[i] == t[1..1 + m][i];
    if 1 + m < |t| {
      assert u[m] == t[1 + m..][0];
    }
    UntilDotAt(u, m);
  }

  /** A match of the groups has a first group. */
  lemma FirstGroup(t: string) returns (m: int)
    requires TldGroups(t)
    ensures 2 <= m <= |t| - 1 && GroupOf(t, m)
  {
    m :| 2 <= m <= |t| - 1 && GroupOf(t, m);
  }

  /** The last group: no dot follows the leading one. */
  lemma LastGroup(t: string)
    requires |t| >= 1 && t[0] == '.' && UntilDot(t[1..]) == |t| - 1
    ensures TldGroups(t) <==> TldLabels(Labels(t[1..]))
  {
    var u := t[1..];
    assert Labels(u) == [u];
    assert t[1..1 + |u|] == u;
    if TldGroups(t) {
      var m := FirstGroup(t);
      GroupEndsAtDot(t, m);
    }
    if TldLabels([u]) {
      assert GroupOf(t, |u|);
    }
  }

  /** Splitting after a first group that a dot ends. */
  lemma {:induction false} InnerLabels(t: string, n: nat)
    requires |t| >= 1 && t[0] == '.' && n == UntilDot(t[1..]) && n < |t| - 1
    ensures Labels(t[1..]) == [t[1..1 + n]] + Labels(t[2 + n..])
  {
    var u := t[1..];
    LabelsAfterDot(u);
    assert u[n + 1..] == t[2 + n..];
    assert u[..n] == t[1..1 + n];
  }

  /** A group followed by more groups, read as labels. */
  lemma InnerGroupToLabels(t: string, n: nat)
    requires |t| >= 1 && t[0] == '.' && n == UntilDot(t[1..]) && n < |t| - 1
    requires TldGroups(t[1 + n..]) ==> TldLabels(Labels(t[2 + n..]))
    requires TldGroups(t)
    ensures TldLabels(Labels(t[1..]))
  {
    InnerLabels(t, n);
    var m := FirstGroup(t);
    GroupEndsAtDot(t, m);
    TldLabelsCons(t[1..1 + n], Labels(t[2 + n..]));
  }

  /** Labels after a first one, read as groups. */
  lemma InnerLabelsToGroup(t: string, n: nat)
    requires |t| >= 1 && t[0] == '.' && n == UntilDot(t[1..]) && n < |t| - 1
    requires TldLabels(Labels(t[2 + n..])) ==> TldGroups(t[1 + n..])
    requires TldLabels(Labels(t[1..]))
    ensures TldGroups(t)
  {
    InnerLabels(t, n);
    TldLabelsCons(t[1..1 + n], Labels(t[2 + n..]));
    assert GroupOf(t, n);
  }

  /** A group followed by more groups. */
  lemma InnerGroup(t: string, n: nat)
    requires |t| >= 1 && t[0] == '.' && n == UntilDot(t[1..]) && n < |t| - 1
    requires TldGroups(t[1 + n..]) <==> TldLabels(Labels(t[2 + n..]))
    ensures TldGroups(t) <==> TldLabels(Labels(t[1..]))
  {
    if TldGroups(t) {
      InnerGroupToLabels(t, n);
    }
    if TldLabels(Labels(t[1..])) {
      InnerLabelsToGroup(t, n);
    }
  }

  /** The groups `(?:\.[a-zA-Z]{2,})+` match exactly a dot followed by labels of two or more
      letters. */
  lemma {:induction false} TldGroupsIffLabels(t: string)
    ensures TldGroups(t) <==> |t| >= 1 && t[0] == '.' && TldLabels(Labels(t[1..]))
    decreases |t|
  {
    if |t| >= 1 && t[0] == '.' {
      var n := UntilDot(t[1..]);
      if n == |t| - 1 {
        LastGroup(t);
      } else {
        TldGroupsIffLabels(t[1 + n..]);
        assert t[1 + n..][1..] == t[2 + n..];
        InnerGroup(t, n);
      }
    }
  }

  /** A match of the domain pattern, split at its first dot. */
  lemma {:induction false} DomainToLabels(s: string, k: nat)
    requires 2 <= k <= 63 && k < |s| && HostLabel(s[..k]) && TldGroups(s[k..])
    ensures var ls := Labels(s);
      |ls| >= 2 && HostLabel(ls[0]) && TldLabels(ls[1..])
  {
    assert '.' !in s[..k] by {
      forall i | 0 <= i < k
        ensures s[..k][i] != '.'
      {
      }
    }
    UntilDotAt(s, k);
    LabelsAfterDot(s);
    assert s[k..][1..] == s[k + 1..];
    TldGroupsIffLabels(s[k..]);
  }

  /** Labels of the right shapes match the domain pattern at the first dot. */
  lemma {:induction false} LabelsToDomain(s: string)
    requires var ls := Labels(s);
      |ls| >= 2 && HostLabel(ls[0]) && TldLabels(ls[1..])
    ensures IsValidDomain(s)
  {
    var n := UntilDot(s);
    assert n < |s|;
    LabelsAfterDot(s);
    assert s[n..][1..] == s[n + 1..];
    TldGroupsIffLabels(s[n..]);
    assert HostLabel(s[..n]) && TldGroups(s[n..]);
  }

  /** The domain pattern, read by labels: splitting at dots gives at least two labels; the
      first is 2 to 63 letters, digits and hyphens that starts and ends with a letter or
      digit, and every other one is two or more letters. */
  lemma DomainPatternByLabels(s: string)
    ensures IsValidDomain(s) <==>
      var ls := Labels(s);
      |ls| >= 2 && HostLabel(ls[0]) && TldLabels(ls[1..])
  {
    if IsValidDomain(s) {
      var k :| 2 <= k <= 63 && k < |s| && HostLabel(s[..k]) && TldGroups(s[k..]);
      DomainToLabels(s, k);
    }
    var ls := Labels(s);
    if |ls| >= 2 && HostLabel(ls[0]) && TldLabels(ls[1..]) {
      LabelsToDomain(s);
    }
  }

  /** A name without a dot, such as `localhost`, is never a valid domain. */
  lemma DotlessNameInvalid(s: string)
    requires '.' !in s
    ensures !IsValidDomain(s)
  {
    assert s[..|s|] == s;
    UntilDotAt(s, |s|);
    DomainPatternByLabels(s);
  }

  /** Lower-casing keeps a wallet address valid and its `0x` prefix intact, so the stored
      address matches the pattern too. */
  lemma WalletLowerValid(w: string)
    requires IsValidWallet(w)
    ensures IsValidWallet(Lower(w))
    ensures Lower(w)[..2] == "0x"
  {
  }
}
