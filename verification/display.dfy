/**
  Display names for bar charts (app.py lines 130, 162 and 194): a product name
  longer than the width keeps its first characters and gets an ellipsis.
 */
module Display {

  /** Width of the names on the top-products and basket charts. */
  const TopWidth: nat := 45

  /** Width of the names on the bottom-products chart. */
  const BottomWidth: nat := 35

  const Ellipsis: string := "..."

  /** `(x[:n] + '...') if len(x) > n else x`. */
  function Truncate(s: string, n: nat): (r: string)
    ensures |s| <= n ==> r == s
    ensures |s| > n ==> |r| == n + |Ellipsis| && r[..n] == s[..n] && r[n..] == Ellipsis
  {
    if |s| > n then s[..n] + Ellipsis else s
  }

  /** A label is never longer than the width plus the ellipsis, nor longer than needed. */
  lemma TruncateLength(s: string, n: nat)
    ensures |Truncate(s, n)| <= n + |Ellipsis|
    ensures |Truncate(s, n)| <= |s| + |Ellipsis|
  {
  }

  /** Shortening a shortened label changes nothing. */
  lemma TruncateIdempotent(s: string, n: nat)
    ensures Truncate(Truncate(s, n), n) == Truncate(s, n)
  {
    var r := Truncate(s, n);
    if |s| > n {
      assert r == r[..n] + r[n..];
    }
  }

  /** Names that fit are shown as they are, so distinct short names keep distinct labels. */
  lemma TruncateInjectiveOnShort(s: string, t: string, n: nat)
    requires |s| <= n && |t| <= n && s != t
    ensures Truncate(s, n) != Truncate(t, n)
  {
  }

  /** Long names that agree on the first `n` characters get the same label. */
  lemma TruncateMerges(s: string, t: string, n: nat)
    requires |s| > n && |t| > n && s[..n] == t[..n]
    ensures Truncate(s, n) == Truncate(t, n)
  {
    var a := Truncate(s, n);
    var b := Truncate(t, n);
    assert a == a[..n] + a[n..] && b == b[..n] + b[n..];
  }

  /** A 50-character name on the top chart becomes its first 45 characters and the ellipsis. */
  lemma TruncateExample()
    ensures
      var name := seq(50, i => 'a');
      |Truncate(name, TopWidth)| == 48 && Truncate(name, TopWidth)[45..] == "..."
    ensures Truncate("Capa", BottomWidth) == "Capa"
  {
  }
}
