/**
 * The pieces of T-SQL text the loader writes around column names: a bracketed
 * identifier `[name]` and the `", "`-joined list of them, with the facts that
 * let such a list be read back item by item.
 */
module SqlText {
  import opened Seqs
  import opened Text

  /** `f"[{col}]"`. */
  function Bracket(col: string): string { "[" + col + "]" }

  /** `", ".join([f"[{col}]" for col in cols])`. */
  function BracketList(cols: seq<string>): string { Join(Map(cols, Bracket), ", ") }

  /** A column name framed by two texts cannot bring a separator with it. */
  lemma Framed(pre: string, c: string, post: string, sep: string)
    requires !Contains(pre, sep) && !Contains(c, sep) && !Contains(post, sep)
    requires |pre| > 0 && pre[|pre| - 1] !in sep
    requires |post| > 0 && post[0] !in sep
    ensures !Contains(pre + c + post, sep)
  {
    NoSpan(pre, c, sep);
    NoSpan(pre + c, post, sep);
  }

  /** The same for a name that appears twice, around a middle text. */
  lemma FramedTwice(pre: string, c: string, mid: string, post: string, sep: string)
    requires !Contains(pre, sep) && !Contains(c, sep) && !Contains(mid, sep) && !Contains(post, sep)
    requires |pre| > 0 && pre[|pre| - 1] !in sep
    requires |mid| > 0 && mid[0] !in sep && mid[|mid| - 1] !in sep
    requires |post| > 0 && post[0] !in sep
    ensures !Contains(pre + c + mid + c + post, sep)
  {
    Framed(pre, c, mid, sep);
    var x := pre + c + mid;
    assert x[|x| - 1] == mid[|mid| - 1];
    Framed(x, c, post, sep);
  }

  /** Fixed text holding neither a comma nor an `A` cannot hold either list separator. */
  predicate SepFree(lit: string)
  {
    ',' !in lit && 'A' !in lit
  }

  lemma LiteralSafe(lit: string, sep: string)
    requires sep == ", " || sep == " AND "
    requires SepFree(lit)
    ensures !Contains(lit, sep)
  {
    if sep == ", " {
      MissingChar(lit, sep, ',');
    } else {
      MissingChar(lit, sep, 'A');
    }
  }

  /** `pre + c + post` is safe to split on `sep` when `c` is and the fixed texts are separator-free. */
  lemma WrapSafe(pre: string, c: string, post: string, sep: string)
    requires sep == ", " || sep == " AND "
    requires SepFree(pre) && SepFree(post) && !Contains(c, sep)
    requires |pre| > 0 && pre[|pre| - 1] == '[' && post == "]"
    ensures SafePart(pre + c + post, sep)
  {
    LiteralSafe(pre, sep);
    LiteralSafe(post, sep);
    Framed(pre, c, post, sep);
  }

  /** `pre + c + mid + c + post`, the same for a name that appears twice. */
  lemma WrapTwiceSafe(pre: string, c: string, mid: string, post: string, sep: string)
    requires sep == ", " || sep == " AND "
    requires SepFree(pre) && SepFree(mid) && SepFree(post) && !Contains(c, sep)
    requires |pre| > 0 && pre[|pre| - 1] == '['
    requires |mid| > 0 && mid[0] == ']' && mid[|mid| - 1] == '['
    requires post == "]"
    ensures SafePart(pre + c + mid + c + post, sep)
  {
    LiteralSafe(pre, sep);
    LiteralSafe(mid, sep);
    LiteralSafe(post, sep);
    FramedTwice(pre, c, mid, post, sep);
  }

  lemma BracketSafe(c: string, sep: string)
    requires sep == ", " || sep == " AND "
    requires !Contains(c, sep)
    ensures SafePart(Bracket(c), sep)
  {
    WrapSafe("[", c, "]", sep);
  }

  /** Names free of commas cannot hold the ", " separator. */
  lemma CommaFree(cols: seq<string>)
    requires forall i :: 0 <= i < |cols| ==> ',' !in cols[i]
    ensures forall i :: 0 <= i < |cols| ==> !Contains(cols[i], ", ")
  {
    forall i | 0 <= i < |cols| ensures !Contains(cols[i], ", ") {
      MissingChar(cols[i], ", ", ',');
    }
  }

  /** A bracketed list splits back into one `[c]` per column, in column order. */
  lemma BracketListSplits(cols: seq<string>)
    requires |cols| > 0
    requires forall i :: 0 <= i < |cols| ==> ',' !in cols[i]
    ensures Split(BracketList(cols), ", ") == Map(cols, Bracket)
  {
    CommaFree(cols);
    forall i | 0 <= i < |cols| ensures SafePart(Map(cols, Bracket)[i], ", ") {
      BracketSafe(cols[i], ", ");
    }
    SplitJoin(Map(cols, Bracket), ", ");
  }
}
