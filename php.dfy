/** The PHP string primitives the bot relies on: strpos, strtolower,
    str_replace and empty() on strings. PHP strings are byte strings, so
    every text is a sequence of bytes. The behaviour is that of PHP 8:
    an empty needle occurs at offset 0 of every string, and strtolower
    folds only the ASCII letters A-Z. */
module Php {

  newtype Byte = b: int | 0 <= b < 256

  type Bytes = seq<Byte>

  datatype Option<+T> = None | Some(value: T)

  /** The byte '0'. */
  const DIGIT_ZERO: Byte := 48

  /** PHP's empty() on a string: true for "" and for "0". */
  predicate IsEmptyString(s: Bytes)
  {
    s == [] || s == [DIGIT_ZERO]
  }

  /** needle occurs in hay starting at offset j. */
  predicate OccursAt(hay: Bytes, needle: Bytes, j: int)
  {
    0 <= j && j + |needle| <= |hay| && hay[j..j + |needle|] == needle
  }

  /** strpos(hay, needle): the first offset at which needle occurs in hay,
      or None where PHP returns FALSE. */
  function StrPos(hay: Bytes, needle: Bytes): (r: Option<nat>)
    ensures r.Some? ==> OccursAt(hay, needle, r.value)
    ensures r.Some? ==> forall j :: 0 <= j < r.value ==> !OccursAt(hay, needle, j)
    ensures r.None? <==> forall j :: !OccursAt(hay, needle, j)
  {
    FirstFrom(hay, needle, 0)
  }

  /** The first offset at or after i at which needle occurs in hay. */
  function FirstFrom(hay: Bytes, needle: Bytes, i: nat): (r: Option<nat>)
    ensures r.Some? ==> i <= r.value && OccursAt(hay, needle, r.value)
    ensures r.Some? ==> forall j :: i <= j < r.value ==> !OccursAt(hay, needle, j)
    ensures r.None? ==> forall j :: i <= j ==> !OccursAt(hay, needle, j)
    decreases |hay| + 1 - i
  {
    if i + |needle| > |hay| then None
    else if OccursAt(hay, needle, i) then Some(i)
    else FirstFrom(hay, needle, i + 1)
  }

  /** strpos(hay, needle) !== FALSE */
  predicate Contains(hay: Bytes, needle: Bytes)
  {
    StrPos(hay, needle).Some?
  }

  /** A needle longer than hay occurs nowhere in it. */
  lemma TooLongAbsent(hay: Bytes, needle: Bytes)
    requires |needle| > |hay|
    ensures !Contains(hay, needle)
  {
  }

  /** strtolower on one byte: ASCII A-Z become a-z, every other byte stays. */
  function LowerByte(b: Byte): Byte
  {
    if 65 <= b <= 90 then b + 32 else b
  }

  /** strtolower: the result has no ASCII capital letter left. */
  function ToLower(s: Bytes): (r: Bytes)
    ensures |r| == |s|
    ensures forall i :: 0 <= i < |r| ==> !(65 <= r[i] <= 90)
    ensures forall i :: 0 <= i < |s| ==> r[i] == LowerByte(s[i])
  {
    seq(|s|, i requires 0 <= i < |s| => LowerByte(s[i]))
  }

  /** Lowering twice is lowering once. */
  lemma ToLowerIdempotent(s: Bytes)
    ensures ToLower(ToLower(s)) == ToLower(s)
  {
  }

  /** A string without ASCII capitals is its own lowered form. */
  lemma ToLowerFixesLower(s: Bytes)
    requires forall i :: 0 <= i < |s| ==> !(65 <= s[i] <= 90)
    ensures ToLower(s) == s
  {
  }

  /** str_replace(search, replace, subject): every occurrence of search,
      found scanning left to right without overlap, is replaced; an empty
      search leaves subject as it is. */
  function StrReplace(search: Bytes, replace: Bytes, subject: Bytes): (r: Bytes)
    ensures search == [] ==> r == subject
    ensures replace == search ==> r == subject
    ensures |replace| == |search| ==> |r| == |subject|
  {
    if search == [] then subject else ReplaceScan(search, replace, subject)
  }

  /** The non-empty search: scan left to right, replace an occurrence and
      continue after it, otherwise keep one byte and move on. Replacing a
      string by itself changes nothing, and a replacement of the same
      length keeps the length. */
  function ReplaceScan(search: Bytes, replace: Bytes, subject: Bytes): (r: Bytes)
    requires search != []
    ensures replace == search ==> r == subject
    ensures |replace| == |search| ==> |r| == |subject|
    decreases |subject|
  {
    if |subject| < |search| then subject
    else if subject[..|search|] == search then
      replace + ReplaceScan(search, replace, subject[|search|..])
    else
      [subject[0]] + ReplaceScan(search, replace, subject[1..])
  }

  /** An occurrence inside the tail of s is an occurrence in s, one further on. */
  lemma OccursInTail(s: Bytes, needle: Bytes, j: int)
    requires |s| > 0 && OccursAt(s[1..], needle, j)
    ensures OccursAt(s, needle, j + 1)
  {
    assert s[1..][j..j + |needle|] == s[j + 1..j + 1 + |needle|];
  }

  /** Containment is transitive: an occurrence of needle inside an
      occurrence of mid is an occurrence of needle in hay. */
  lemma OccursWithin(hay: Bytes, mid: Bytes, needle: Bytes, j: int, k: int)
    requires OccursAt(hay, mid, j) && OccursAt(mid, needle, k)
    ensures OccursAt(hay, needle, j + k)
  {
    forall i | 0 <= i < |needle|
      ensures hay[j + k..j + k + |needle|][i] == needle[i]
    {
      assert needle[i] == mid[k..k + |needle|][i] == mid[k + i];
      assert mid[k + i] == hay[j..j + |mid|][k + i] == hay[j + k + i];
    }
  }

  lemma ContainsWithin(hay: Bytes, mid: Bytes, needle: Bytes)
    requires Contains(hay, mid) && Contains(mid, needle)
    ensures Contains(hay, needle)
  {
    OccursWithin(hay, mid, needle, StrPos(hay, mid).value, StrPos(mid, needle).value);
  }

  /** strtolower neither creates nor removes a byte that is not a letter, so
      containment of such a byte is the same before and after lowering. */
  lemma LowerKeepsNonLetter(s: Bytes, b: Byte)
    requires !(65 <= b <= 90) && !(97 <= b <= 122)
    ensures Contains(ToLower(s), [b]) <==> Contains(s, [b])
  {
    var low := ToLower(s);
    if Contains(s, [b]) {
      var j := StrPos(s, [b]).value;
      assert s[j..j + 1] == [s[j]];
      assert low[j..j + 1] == [low[j]];
      assert OccursAt(low, [b], j);
    }
    if Contains(low, [b]) {
      var j := StrPos(low, [b]).value;
      assert low[j..j + 1] == [low[j]];
      assert s[j..j + 1] == [s[j]];
      assert OccursAt(s, [b], j);
    }
  }

  /** str_replace leaves a subject without an occurrence of search unchanged. */
  lemma StrReplaceAbsent(search: Bytes, replace: Bytes, subject: Bytes)
    requires !Contains(subject, search)
    ensures StrReplace(search, replace, subject) == subject
  {
    if search != [] {
      ReplaceScanAbsent(search, replace, subject);
    }
  }

  lemma {:induction false} ReplaceScanAbsent(search: Bytes, replace: Bytes, subject: Bytes)
    requires search != [] && !Contains(subject, search)
    ensures ReplaceScan(search, replace, subject) == subject
    decreases |subject|
  {
    if |search| <= |subject| {
      assert !OccursAt(subject, search, 0);
      assert subject[..|search|] != search;
      forall j | OccursAt(subject[1..], search, j)
        ensures false
      {
        OccursInTail(subject, search, j);
      }
      ReplaceScanAbsent(search, replace, subject[1..]);
      assert [subject[0]] + subject[1..] == subject;
    }
  }

  /** The search filters are matched against lowered text only, so a
      filter holding an ASCII capital letter never occurs in it. */
  lemma {:induction false} UpperNeverMatches(text: Bytes, f: Bytes, j: int)
    requires 0 <= j < |f| && 65 <= f[j] <= 90
    ensures !Contains(ToLower(text), f)
  {
    var low := ToLower(text);
    forall i | 0 <= i && i + |f| <= |low|
      ensures !OccursAt(low, f, i)
    {
      assert low[i..i + |f|][j] == low[i + j];
      assert !(65 <= low[i + j] <= 90);
    }
  }

  /** A subject that is exactly search becomes exactly replace. */
  lemma ReplaceWhole(search: Bytes, replace: Bytes)
    requires search != []
    ensures StrReplace(search, replace, search) == replace
  {
    assert search[..|search|] == search;
    assert search[|search|..] == [];
    assert ReplaceScan(search, replace, []) == [];
    assert replace + [] == replace;
  }
}
