/**
 * Column-id utilities (my-todo/src/utils/columnUtils.ts): the transliterating
 * slug of a column title, the uniqueness test, and the search for the first
 * free numeric suffix.
 */
module ColumnUtils {
  import opened JsText
  import opened Maybe

  /** The Latin strings of `а`..`я` (U+0430..U+044F), in alphabetical order. */
  const LatinOf: seq<string> := [
    "a", "b", "v", "g", "d", "e", "zh", "z", "i", "y", "k", "l", "m", "n", "o", "p",
    "r", "s", "t", "u", "f", "h", "ts", "ch", "sh", "sch", "", "y", "", "e", "yu", "ya"]

  /** `translitMap[c]`: the Cyrillic-to-Latin table, whose 33 keys are the
      lower-case Russian letters. The hard and soft signs map to the empty
      string; every other character is not a key. */
  function TranslitEntry(c: char): Option<string> {
    if 'а' <= c <= 'я' then Some(LatinOf[c as int - 'а' as int])
    else if c == 'ё' then Some("yo")
    else None
  }

  predicate IsSlugChar(c: char) {
    IsAsciiLower(c) || IsDigit(c) || c == '_' || c == '-'
  }

  predicate AllSlugChars(s: string) {
    forall i :: 0 <= i < |s| ==> IsSlugChar(s[i])
  }

  predicate NoDoubleDash(s: string) {
    forall i :: 0 <= i < |s| - 1 ==> !(s[i] == '-' && s[i + 1] == '-')
  }

  /** The shape of every generated column id: only `a-z`, `0-9`, `_` and `-`,
      no `--`, and no dash at either end. */
  predicate IsSlug(s: string) {
    && AllSlugChars(s)
    && NoDoubleDash(s)
    && (s != [] ==> s[0] != '-' && s[|s| - 1] != '-')
  }

  /** The lower-case Russian alphabet: U+0430..U+044F and U+0451. */
  predicate IsRussianLower(c: char) {
    'а' <= c <= 'я' || c == 'ё'
  }

  predicate NoRussianLower(s: string) {
    forall i :: 0 <= i < |s| ==> !IsRussianLower(s[i])
  }

  predicate IsLowerWord(s: string) {
    s != [] && forall i :: 0 <= i < |s| ==> IsAsciiLower(s[i])
  }

  /** The keys of the table are exactly the 33 lower-case Russian letters
      (U+0430..U+044F and U+0451); every value is a non-empty lower-case Latin
      word except for the two signs, whose value is empty. */
  lemma TranslitTable()
    ensures forall c :: TranslitEntry(c).Some? <==> IsRussianLower(c)
    ensures forall c :: TranslitEntry(c).Some? ==> (TranslitEntry(c).value == "" <==> c == 'ъ' || c == 'ь')
    ensures forall c :: TranslitEntry(c).Some? && c != 'ъ' && c != 'ь' ==> IsLowerWord(TranslitEntry(c).value)
  {
  }

  /** One character through `translitMap[char] || char`: both a missing key and an
      empty entry are falsy, so other characters and the two signs pass through
      unchanged. */
  function TranslitChar(c: char): string {
    match TranslitEntry(c)
    case Some(latin) => if latin != "" then latin else [c]
    case None => [c]
  }

  /** `split("").map(char => translitMap[char] || char).join("")`. */
  function Transliterate(s: string): string {
    if s == [] then [] else TranslitChar(s[0]) + Transliterate(s[1..])
  }

  /** Transliteration introduces no upper-case letter. */
  lemma {:induction false} TransliterateFacts(s: string)
    ensures NoAsciiUpper(s) ==> NoAsciiUpper(Transliterate(s))
  {
    if s != [] {
      TranslitTable();
      TransliterateFacts(s[1..]);
      assert NoAsciiUpper(s) ==> NoAsciiUpper(s[1..]);
    }
  }

  /** A string with no lower-case Russian letter is left unchanged. */
  lemma {:induction false} TransliterateUnchanged(s: string)
    requires NoRussianLower(s)
    ensures Transliterate(s) == s
  {
    if s != [] {
      TranslitTable();
      TransliterateUnchanged(s[1..]);
    }
  }

  /** Transliteration works character by character. */
  lemma {:induction false} TransliterateAppend(a: string, b: string)
    ensures Transliterate(a + b) == Transliterate(a) + Transliterate(b)
  {
    if a == [] {
      assert a + b == b;
    } else {
      assert (a + b)[1..] == a[1..] + b;
      TransliterateAppend(a[1..], b);
    }
  }

  /** `s.replace(/\-+/g, "-")`: a dash followed by another dash is dropped, so every
      run of dashes becomes one dash. */
  function SquashDashes(s: string): string {
    if s == [] then []
    else if s[0] == '-' && |s| > 1 && s[1] == '-' then SquashDashes(s[1..])
    else [s[0]] + SquashDashes(s[1..])
  }

  /** No `--` survives `SquashDashes`, the first character is kept, and so is the
      alphabet. */
  lemma {:induction false} SquashDashesFacts(s: string)
    ensures NoDoubleDash(SquashDashes(s))
    ensures s != [] ==> SquashDashes(s) != [] && SquashDashes(s)[0] == s[0]
    ensures AllSlugChars(s) ==> AllSlugChars(SquashDashes(s))
  {
    if s != [] {
      SquashDashesFacts(s[1..]);
      assert AllSlugChars(s) ==> AllSlugChars(s[1..]);
    }
  }

  /** A whole run of dashes, of any length, becomes one dash. */
  lemma {:induction false} SquashDashesRun(s: string)
    requires s != [] && forall i :: 0 <= i < |s| ==> s[i] == '-'
    ensures SquashDashes(s) == "-"
  {
    if |s| > 1 {
      SquashDashesRun(s[1..]);
    }
  }

  /** A string without `--` is left unchanged. */
  lemma {:induction false} SquashDashesUnchanged(s: string)
    requires NoDoubleDash(s)
    ensures SquashDashes(s) == s
  {
    if s != [] {
      SquashDashesUnchanged(s[1..]);
    }
  }

  /** Runs of dashes never span the seam, so the two halves are squashed apart. */
  lemma {:induction false} SquashDashesAppend(a: string, b: string)
    requires a == [] || b == [] || a[|a| - 1] != '-' || b[0] != '-'
    ensures SquashDashes(a + b) == SquashDashes(a) + SquashDashes(b)
  {
    if a == [] {
      assert a + b == b;
    } else {
      assert (a + b)[1..] == a[1..] + b;
      SquashDashesAppend(a[1..], b);
    }
  }

  /** `s.replace(/^\-|\-$/g, "")`: one leading and one trailing dash are removed. */
  function TrimDashes(s: string): (r: string)
    ensures AllSlugChars(s) && NoDoubleDash(s) ==> IsSlug(r)
    ensures IsSlug(s) ==> r == s
  {
    var t := if s != [] && s[0] == '-' then s[1..] else s;
    if t != [] && t[|t| - 1] == '-' then t[..|t| - 1] else t
  }

  /** `generateColumnId(title)`. */
  function GenerateColumnId(title: string): string {
    TrimDashes(SquashDashes(StripNonWord(DashSpaces(Transliterate(LowerCase(title))))))
  }

  /** The pipeline step by step: an id is known once each step's output is. */
  lemma GenerateColumnIdSteps(title: string, lowered: string, latin: string, dashed: string, id: string)
    requires LowerCase(title) == lowered
    requires Transliterate(lowered) == latin
    requires DashSpaces(latin) == dashed
    requires TrimDashes(SquashDashes(StripNonWord(dashed))) == id
    ensures GenerateColumnId(title) == id
  {
  }

  /** Every generated id has the slug shape: only `a-z`, `0-9`, `_` and `-`, no
      `--`, and no dash at either end. */
  lemma GenerateColumnIdIsSlug(title: string)
    ensures IsSlug(GenerateColumnId(title))
  {
    var lowered := LowerCase(title);
    var latin := Transliterate(lowered);
    var dashed := DashSpaces(latin);
    var kept := StripNonWord(dashed);
    TransliterateFacts(lowered);
    DashSpacesFacts(latin);
    StripNonWordFacts(dashed);
    assert AllSlugChars(kept);
    SquashDashesFacts(kept);
  }

  /** A string that already has the slug shape passes through every step
      unchanged, so it is its own id. */
  lemma SlugIsOwnColumnId(s: string)
    requires IsSlug(s)
    ensures GenerateColumnId(s) == s
  {
    assert LowerCase(s) == s;
    TransliterateUnchanged(s);
    DashSpacesUnchanged(s);
    SlugSurvivesCleanup(s);
  }

  /** `generateColumnId` applied to its own output changes nothing. */
  lemma GenerateColumnIdIdempotent(title: string)
    ensures GenerateColumnId(GenerateColumnId(title)) == GenerateColumnId(title)
  {
    GenerateColumnIdIsSlug(title);
    SlugIsOwnColumnId(GenerateColumnId(title));
  }

  /** The clean-up steps after the dashing leave a slug-shaped string unchanged. */
  lemma SlugSurvivesCleanup(s: string)
    requires IsSlug(s)
    ensures TrimDashes(SquashDashes(StripNonWord(s))) == s
  {
    StripNonWordUnchanged(s);
    SquashDashesUnchanged(s);
  }

  /** A single letter's id: a Russian letter, in either case, becomes its Latin
      string from the table, except that the hard and soft signs vanish. */
  lemma LetterColumnId(c: char)
    requires IsRussianLower(LowerChar(c))
    ensures LowerChar(c) in {'ъ', 'ь'} ==> GenerateColumnId([c]) == []
    ensures LowerChar(c) !in {'ъ', 'ь'} ==> GenerateColumnId([c]) == TranslitEntry(LowerChar(c)).value
  {
    var l := LowerChar(c);
    assert LowerCase([c]) == [l];
    TranslitTable();
    assert Transliterate([l]) == TranslitChar(l);
    if l in {'ъ', 'ь'} {
      assert DashSpaces([l]) == [l];
      assert StripNonWord([l]) == [];
    } else {
      var latin := TranslitEntry(l).value;
      assert Transliterate([l]) == latin;
      assert IsSlug(latin);
      DashSpacesUnchanged(latin);
      SlugSurvivesCleanup(latin);
    }
  }

  /** `isColumnIdUnique(id, existingIds)`: `!existingIds.includes(id)`. */
  function IsColumnIdUnique(id: string, existingIds: seq<string>): (unique: bool)
    ensures unique <==> forall i :: 0 <= i < |existingIds| ==> existingIds[i] != id
  {
    id !in existingIds
  }

  /** The candidate `${baseId}-${counter}`. */
  function Suffixed(baseId: string, k: nat): string {
    baseId + "-" + NatToDecimal(k)
  }

  /** Distinct counters give distinct candidates, and no candidate is the base itself. */
  lemma SuffixedInjective(baseId: string, j: nat, k: nat)
    ensures Suffixed(baseId, j) != baseId
    ensures Suffixed(baseId, j) == Suffixed(baseId, k) ==> j == k
  {
    if Suffixed(baseId, j) == Suffixed(baseId, k) {
      var n := |baseId| + 1;
      assert NatToDecimal(j) == Suffixed(baseId, j)[n..];
      assert NatToDecimal(k) == Suffixed(baseId, k)[n..];
      DecimalInjective(j, k);
    }
  }

  /** The base together with the candidates for 2..k. */
  ghost function Taken(baseId: string, k: nat): set<string> {
    if k <= 1 then {baseId} else Taken(baseId, k - 1) + {Suffixed(baseId, k)}
  }

  lemma {:induction false} NotYetTaken(baseId: string, j: nat, k: nat)
    requires j > k
    ensures Suffixed(baseId, j) !in Taken(baseId, k)
  {
    SuffixedInjective(baseId, j, k);
    if k > 1 {
      NotYetTaken(baseId, j, k - 1);
    }
  }

  lemma {:induction false} TakenSize(baseId: string, k: nat)
    requires k >= 1
    ensures |Taken(baseId, k)| == k
  {
    if k > 1 {
      TakenSize(baseId, k - 1);
      NotYetTaken(baseId, k, k - 1);
    }
  }

  lemma {:induction false} TakenWithin(baseId: string, existingIds: seq<string>, k: nat)
    requires baseId in existingIds
    requires forall j :: 2 <= j <= k ==> Suffixed(baseId, j) in existingIds
    ensures Taken(baseId, k) <= set x | x in existingIds
  {
    if k > 1 {
      TakenWithin(baseId, existingIds, k - 1);
    }
  }

  lemma {:induction false} DistinctAtMostLength(ids: seq<string>)
    ensures |set x | x in ids| <= |ids|
  {
    if ids != [] {
      DistinctAtMostLength(ids[1..]);
      assert (set x | x in ids) == {ids[0]} + set x | x in ids[1..];
    }
  }

  /** If the base and the candidates for 2..k are all taken, there are at least k
      ids, which bounds the search. */
  lemma TakenBound(baseId: string, existingIds: seq<string>, k: nat)
    requires k >= 1
    requires baseId in existingIds
    requires forall j :: 2 <= j <= k ==> Suffixed(baseId, j) in existingIds
    ensures k <= |existingIds|
  {
    TakenSize(baseId, k);
    DistinctAtMostLength(existingIds);
    TakenWithin(baseId, existingIds, k);
    SubsetSize(Taken(baseId, k), set x | x in existingIds);
  }

  lemma {:induction false} SubsetSize<T>(a: set<T>, b: set<T>)
    requires a <= b
    ensures |a| <= |b|
  {
    if a != {} {
      var x :| x in a;
      SubsetSize(a - {x}, b - {x});
    }
  }

  /** What `generateUniqueColumnId` returns for a base id: a free id, namely the
      base itself when it is free, and otherwise `base-k` for the smallest `k >= 2`
      whose candidate is free, where `k` is at most `|existingIds| + 1`. */
  ghost predicate IsFirstFreeId(baseId: string, existingIds: seq<string>, id: string) {
    && id !in existingIds
    && (baseId !in existingIds ==> id == baseId)
    && (baseId in existingIds ==>
          exists k :: 2 <= k <= |existingIds| + 1 && id == Suffixed(baseId, k)
                      && forall j :: 2 <= j < k ==> Suffixed(baseId, j) in existingIds)
  }

  /** `generateUniqueColumnId(title, existingIds)`: the base slug when it is free,
      otherwise the first free suffixed candidate; the search always stops. */
  method GenerateUniqueColumnId(title: string, existingIds: seq<string>) returns (id: string)
    ensures IsFirstFreeId(GenerateColumnId(title), existingIds, id)
  {
    var baseId := GenerateColumnId(title);
    if IsColumnIdUnique(baseId, existingIds) {
      return baseId;
    }
    var counter := 2;
    var uniqueId := Suffixed(baseId, counter);
    while !IsColumnIdUnique(uniqueId, existingIds)
      invariant 2 <= counter <= |existingIds| + 1
      invariant uniqueId == Suffixed(baseId, counter)
      invariant forall j :: 2 <= j < counter ==> Suffixed(baseId, j) in existingIds
      decreases |existingIds| + 1 - counter
    {
      TakenBound(baseId, existingIds, counter);
      counter := counter + 1;
      uniqueId := Suffixed(baseId, counter);
    }
    return uniqueId;
  }
}
