/** Title normalisation and the duplicate predicate every ticket-creation path shares. */
module Titles {
  import opened Text

  predicate IsAlnum(c: char) {
    '0' <= c <= '9' || 'A' <= c <= 'Z' || 'a' <= c <= 'z'
  }

  /** The loop state of `normalize_title`: the buffer, and whether it just got a space. */
  datatype Scan = Scan(out: string, prevSpace: bool)

  function Feed(acc: Scan, c: char): Scan {
    if IsAlnum(c) then Scan(acc.out + [LowerAscii(c)], false)
    else if !acc.prevSpace && acc.out != [] then Scan(acc.out + [' '], true)
    else acc
  }

  function Scanned(title: string): Scan {
    if title == [] then Scan([], false) else Feed(Scanned(title[..|title| - 1]), title[|title| - 1])
  }

  /** Lowercase alphanumerics, runs of anything else collapsed to single inner spaces. */
  function Normalize(title: string): string {
    Trim(Scanned(title).out)
  }

  method NormalizeTitle(title: string) returns (norm: string)
    ensures norm == Normalize(title)
  {
    var out, prevSpace := "", false;
    for i := 0 to |title|
      invariant Scan(out, prevSpace) == Scanned(title[..i])
    {
      var c := title[i];
      assert title[..i + 1][..i] == title[..i];
      if IsAlnum(c) {
        out, prevSpace := out + [LowerAscii(c)], false;
      } else if !prevSpace && out != [] {
        out, prevSpace := out + [' '], true;
      }
    }
    assert title[..|title|] == title;
    norm := Trim(out);
  }

  lemma {:induction false} LeadingIgnored(w: string, s: string)
    requires AllWhitespace(w)
    ensures Scanned(w + s) == Scanned(s)
    decreases |w| + |s|
  {
    if s != [] {
      assert (w + s)[..|w + s| - 1] == w + s[..|s| - 1];
      LeadingIgnored(w, s[..|s| - 1]);
    } else if w != [] {
      assert w + s == w && s + s == s;
      assert IsWhitespace(w[|w| - 1]);
      LeadingIgnored(w[..|w| - 1], s);
      assert w[..|w| - 1] + s == w[..|w| - 1];
    } else {
      assert w + s == s;
    }
  }

  lemma {:induction false} TrailingIgnored(s: string, w: string)
    requires AllWhitespace(w)
    ensures Scanned(s + w).out == Scanned(s).out || Scanned(s + w) == Scan(Scanned(s).out + [' '], true)
    ensures Scanned(s).out == [] || Scanned(s).prevSpace ==> Scanned(s + w).out == Scanned(s).out
    ensures Scanned(s + w).out == Scanned(s).out ==> Scanned(s + w).prevSpace == Scanned(s).prevSpace
    decreases |w|
  {
    if w == [] {
      assert s + w == s;
    } else {
      var n := |w| - 1;
      assert (s + w)[..|s + w| - 1] == s + w[..n];
      assert (s + w)[|s + w| - 1] == w[n] && IsWhitespace(w[n]);
      TrailingIgnored(s, w[..n]);
    }
  }

  lemma {:induction false} StartsSolid(s: string)
    ensures Scanned(s).out == [] || !IsWhitespace(Scanned(s).out[0])
    decreases |s|
  {
    if s != [] {
      StartsSolid(s[..|s| - 1]);
    }
  }

  lemma TrimDropsSpace(s: string)
    requires s != [] && !IsWhitespace(s[0])
    ensures Trim(s + [' ']) == Trim(s)
  {
    assert TrimStart(s + [' ']) == s + [' '] && TrimStart(s) == s;
    assert (s + [' '])[..|s|] == s;
  }

  /** Normalisation sees through trimming, so a stored title still matches its draft. */
  lemma TrimInvariant(title: string)
    ensures Normalize(Trim(title)) == Normalize(title)
  {
    var left, right := TrimSplits(title);
    var core := Trim(title);
    LeadingIgnored(left, core + right);
    assert left + (core + right) == title;
    TrailingIgnored(core, right);
    StartsSolid(core);
    if Scanned(title).out != Scanned(core).out {
      TrimDropsSpace(Scanned(core).out);
    }
  }

  /**
   * `duplicates_existing`: a blank title, an equal normal form, or kinship between
   * normal forms. The kinship (ceremony wording, token overlap) is a parameter.
   */
  predicate Duplicates(kin: (string, string) -> bool, title: string, existing: seq<string>) {
    var norm := Normalize(title);
    norm == [] || exists e :: e in existing && (Normalize(e) == norm || kin(norm, Normalize(e)))
  }
}
