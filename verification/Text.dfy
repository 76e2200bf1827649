/** Trimming text, as the string methods of the source do it. */
module Text {

  /** The characters for which Python's `str.isspace` holds, which `str.strip` removes. */
  predicate IsSpace(c: char) {
    var n := c as int;
    || 9 <= n <= 13 || 28 <= n <= 32 || n == 0x85 || n == 0xA0 || n == 0x1680
    || 0x2000 <= n <= 0x200A || n == 0x2028 || n == 0x2029 || n == 0x202F || n == 0x205F || n == 0x3000
  }

  /** Of the ASCII characters, the visible ones are not blank, and the usual layout characters are. */
  lemma AsciiBlanks(c: char)
    ensures '!' <= c <= '~' ==> !IsSpace(c)
    ensures c in " \t\n\r\U{0B}\U{0C}" ==> IsSpace(c)
  {
  }

  predicate IsQuote(c: char) { c == '"' }

  function TrimLeft(s: string, p: char -> bool): string {
    if s != "" && p(s[0]) then TrimLeft(s[1..], p) else s
  }

  function TrimRight(s: string, p: char -> bool): string {
    if s != "" && p(s[|s| - 1]) then TrimRight(s[..|s| - 1], p) else s
  }

  function Trim(s: string, p: char -> bool): string { TrimRight(TrimLeft(s, p), p) }

  /** `s.strip()` */
  function Strip(s: string): string { Trim(s, IsSpace) }

  /** Nothing left to trim at either end. */
  predicate Tight(s: string, p: char -> bool) {
    s != "" ==> !p(s[0]) && !p(s[|s| - 1])
  }

  predicate All(s: string, p: char -> bool) { forall i | 0 <= i < |s| :: p(s[i]) }

  lemma {:induction false} TrimLeftDrops(s: string, p: char -> bool)
    ensures TrimLeft(s, p) != "" ==> !p(TrimLeft(s, p)[0])
    ensures |TrimLeft(s, p)| <= |s| && TrimLeft(s, p) == s[|s| - |TrimLeft(s, p)|..]
  {
    if s != "" && p(s[0]) {
      TrimLeftDrops(s[1..], p);
    }
  }

  lemma {:induction false} TrimRightDrops(s: string, p: char -> bool)
    ensures TrimRight(s, p) != "" ==> !p(TrimRight(s, p)[|TrimRight(s, p)| - 1])
    ensures TrimRight(s, p) <= s
  {
    if s != "" && p(s[|s| - 1]) {
      TrimRightDrops(s[..|s| - 1], p);
    }
  }

  /** Trimmed text is tight, and tight text is left alone: trimming is idempotent. */
  lemma TrimIsIdempotent(s: string, p: char -> bool)
    ensures Tight(Trim(s, p), p)
    ensures Tight(s, p) ==> Trim(s, p) == s
    ensures Trim(Trim(s, p), p) == Trim(s, p)
  {
    TrimLeftDrops(s, p);
    TrimRightDrops(TrimLeft(s, p), p);
  }

  lemma {:induction false} TrimLeftOfPadded(l: string, s: string, p: char -> bool)
    requires All(l, p) && (s != "" ==> !p(s[0]))
    ensures TrimLeft(l + s, p) == s
  {
    if l == "" {
      assert l + s == s;
    } else {
      assert (l + s)[1..] == l[1..] + s;
      TrimLeftOfPadded(l[1..], s, p);
    }
  }

  lemma {:induction false} TrimRightOfPadded(s: string, r: string, p: char -> bool)
    requires All(r, p) && (s != "" ==> !p(s[|s| - 1]))
    ensures TrimRight(s + r, p) == s
  {
    if r == "" {
      assert s + r == s;
    } else {
      assert (s + r)[..|s + r| - 1] == s + r[..|r| - 1];
      TrimRightOfPadded(s, r[..|r| - 1], p);
    }
  }

  /** Padding around tight text is exactly what trimming removes. */
  lemma TrimRemovesPadding(l: string, s: string, r: string, p: char -> bool)
    requires All(l, p) && All(r, p) && s != "" && Tight(s, p)
    ensures Trim(l + s + r, p) == s
  {
    assert l + s + r == l + (s + r);
    TrimLeftOfPadded(l, s + r, p);
    TrimRightOfPadded(s, r, p);
  }
}
