/** The two answer validators of the dialogue: the full-name shape and the brand allowlist. */
module Validators {
  import opened Text

  /** The brands a booking may name, in several scripts and spellings. */
  const Brands: seq<string> := [
    "ابو حوا", "أبو حوا",
    "دايون", "dayun",
    "هوجان", "hogan",
    "بنلي", "benelli",
    "كي واي", "كيوى", "keeway", "keway",
    "فيجورى", "vigory",
    "زونتيس", "zontes", "زانتوس",
    "cmg", "سي ام جي",
    "تايجر", "tiger",
    "تروسكل", "تروسيكل", "tricycle"
  ]

  /** `brands.some(b => lower.includes(b.toLowerCase()))`, scanning the list in order. */
  function AnyBrandIn(lower: string, brands: seq<string>): bool
  {
    if brands == [] then false
    else if Contains(lower, Lower(brands[0])) then true
    else AnyBrandIn(lower, brands[1..])
  }

  /** The scan finds a brand exactly when some brand of the list, lower-cased, occurs
      in the text. */
  lemma {:induction false} AnyBrandInMeans(lower: string, brands: seq<string>)
    ensures AnyBrandIn(lower, brands) <==> exists k :: 0 <= k < |brands| && IsSubstring(Lower(brands[k]), lower)
  {
    if brands != [] {
      ContainsMeansSubstring(lower, Lower(brands[0]));
      AnyBrandInMeans(lower, brands[1..]);
      assert forall k :: 1 <= k < |brands| ==> brands[k] == brands[1..][k - 1];
      if exists k :: 0 <= k < |brands| && IsSubstring(Lower(brands[k]), lower) {
        var k :| 0 <= k < |brands| && IsSubstring(Lower(brands[k]), lower);
        if k > 0 {
          assert IsSubstring(Lower(brands[1..][k - 1]), lower);
        }
      }
    }
  }

  /** The bike answer check: some brand of the allowlist, lower-cased, occurs in the
      lower-cased answer. */
  function IsAllowedBike(text: string): bool
  {
    AnyBrandIn(Lower(text), Brands)
  }

  /** A bike answer is accepted exactly when some brand of the allowlist, lower-cased,
      occurs in the lower-cased answer. */
  lemma AllowedBikeMeansBrand(text: string)
    ensures IsAllowedBike(text) <==> exists k :: 0 <= k < |Brands| && IsSubstring(Lower(Brands[k]), Lower(text))
  {
    AnyBrandInMeans(Lower(text), Brands);
  }

  /** Adding text around an accepted answer keeps it accepted. */
  lemma AllowedBikeSuperstring(text: string, before: string, after: string)
    requires IsAllowedBike(text)
    ensures IsAllowedBike(before + text + after)
  {
    AllowedBikeMeansBrand(text);
    AllowedBikeMeansBrand(before + text + after);
    var k :| 0 <= k < |Brands| && IsSubstring(Lower(Brands[k]), Lower(text));
    LowerAppend(before + text, after);
    LowerAppend(before, text);
    SubstringOfSuperstring(Lower(Brands[k]), Lower(text), Lower(before), Lower(after));
  }

  /** The pieces of a name answer: trimmed, split on whitespace runs, the empty
      pieces dropped. */
  function NameParts(name: string): seq<string>
  {
    NonEmptyParts(SplitOnSpaceRuns(Trim(name)))
  }

  /** The name pieces are the whitespace-separated words of the answer, in order,
      and no other list is: one piece per word, each a non-empty run of
      non-whitespace characters. */
  lemma NamePartsAreWords(name: string)
    ensures AreWordsOf(NameParts(name), name)
    ensures forall words :: AreWordsOf(words, name) ==> words == NameParts(name)
    ensures |NameParts(name)| == WordCount(name)
    ensures forall k :: 0 <= k < |NameParts(name)| ==> NameParts(name)[k] != [] && NoSpace(NameParts(name)[k])
  {
    NamePartsLayout(name);
    forall words | AreWordsOf(words, name)
      ensures words == NameParts(name)
    {
      WordsAreUnique(words, NameParts(name), name);
    }
    NamePartsCount(name);
  }

  /** The name pieces, with whitespace runs between them, make up the answer. */
  lemma NamePartsLayout(name: string)
    ensures AreWordsOf(NameParts(name), name)
  {
    var gaps := SplitLayout(Trim(name));
    TrimKeepsWords(NameParts(name), name);
  }

  /** One name piece per word, each non-empty and free of whitespace. */
  lemma NamePartsCount(name: string)
    ensures |NameParts(name)| == WordCount(name)
    ensures forall k :: 0 <= k < |NameParts(name)| ==> NameParts(name)[k] != [] && NoSpace(NameParts(name)[k])
  {
    var parts := SplitOnSpaceRuns(Trim(name));
    SplitCountsWords(Trim(name));
    TrimKeepsWordCount(name);
    SplitShape(Trim(name));
    NonEmptyPartsShape(parts);
    forall k | 0 <= k < |NameParts(name)|
      ensures NameParts(name)[k] != [] && NoSpace(NameParts(name)[k])
    {
      var j :| 0 <= j < |parts| && parts[j] == NameParts(name)[k];
    }
  }

  /** A name answer is accepted when it has at least three pieces. */
  function IsValidFullName(name: string): bool
  {
    |NameParts(name)| >= 3
  }

  /** A name answer is accepted exactly when it holds at least three
      whitespace-separated words. */
  lemma FullNameMeansThreeWords(name: string)
    ensures IsValidFullName(name) <==> WordCount(name) >= 3
  {
    NamePartsCount(name);
  }

  /** A blank answer (empty or only whitespace) is never a full name. */
  lemma BlankNameRejected(name: string)
    requires AllSpace(name)
    ensures !IsValidFullName(name)
  {
    AllSpaceHasNoWords(name);
    FullNameMeansThreeWords(name);
  }

  /** Two words are not a full name. */
  lemma TwoWordNameRejected(name: string)
    requires name == "احمد محمد"
    ensures !IsValidFullName(name)
  {
    var first, father := "احمد", "محمد";
    assert NoSpace(first) && NoSpace(father);
    CountWordStartsNoSpace(father, true);
    assert name[..|first|] == first && name[|first|..][..1] == " " && name[|first| + 1..] == father;
    WordCountAroundGap(name, |first|, 1);
    FullNameMeansThreeWords(name);
  }

  /** Three words are a full name. */
  lemma ThreeWordNameAccepted(name: string)
    requires name == "احمد محمد علي"
    ensures IsValidFullName(name)
  {
    var first, father, family := "احمد", "محمد", "علي";
    ThreeWordCount(first, father, family);
    assert name == first + " " + father + " " + family;
    FullNameMeansThreeWords(name);
  }

  /** Three whitespace-free words joined by single spaces count as three words. */
  lemma ThreeWordCount(first: string, father: string, family: string)
    requires first != [] && NoSpace(first)
    requires father != [] && NoSpace(father)
    requires family != [] && NoSpace(family)
    ensures WordCount(first + " " + father + " " + family) == 3
  {
    CountWordStartsNoSpace(family, true);
    WordCountAfterWord(father, family);
    WordCountAfterWord(first, father + " " + family);
    assert first + " " + father + " " + family == first + " " + (father + " " + family);
  }

  /** A word and one space in front of a text add one word. */
  lemma WordCountAfterWord(w: string, rest: string)
    requires w != [] && NoSpace(w)
    ensures WordCount(w + " " + rest) == 1 + WordCount(rest)
  {
    var s := w + " " + rest;
    assert s[..|w|] == w && s[|w|..][..1] == " " && s[|w| + 1..] == rest;
    WordCountAroundGap(s, |w|, 1);
  }

  /** An answer that mentions a brand inside other words is accepted. */
  lemma AllowedBikeExample(answer: string)
    requires answer == "عايز دايون 150"
    ensures IsAllowedBike(answer)
  {
    assert Brands[2] == "دايون";
    BrandInAnswer(answer, Brands[2]);
    AllowedBikeMeansBrand(answer);
  }

  lemma BrandInAnswer(answer: string, brand: string)
    requires answer == "عايز دايون 150" && brand == "دايون"
    ensures IsSubstring(Lower(brand), Lower(answer))
  {
    LowerWithoutCapitals(answer);
    LowerWithoutCapitals(brand);
    assert OccursAt(brand, answer, 5);
  }

  /** An answer naming a brand outside the allowlist is refused. */
  lemma UnlistedBikeRejected(answer: string)
    requires answer == "Honda CBR"
    ensures !IsAllowedBike(answer)
  {
    var lower := Lower(answer);
    LowerShape(answer);
    assert lower == "honda cbr";
    AllowedBikeMeansBrand(answer);
    forall k | 0 <= k < |Brands|
      ensures !IsSubstring(Lower(Brands[k]), lower)
    {
      BrandAbsent(k, lower);
    }
  }

  /** Every brand of the allowlist holds a character that "honda cbr" lacks. */
  lemma BrandAbsent(k: int, lower: string)
    requires 0 <= k < |Brands| && lower == "honda cbr"
    ensures !IsSubstring(Lower(Brands[k]), lower)
  {
    if k < 8 {
      LeadingBrandsAbsent(k, lower);
    } else if k < 16 {
      MiddleBrandsAbsent(k, lower);
    } else {
      TrailingBrandsAbsent(k, lower);
    }
  }

  /** Brands 0 to 7 of the allowlist. */
  lemma LeadingBrandsAbsent(k: int, lower: string)
    requires 0 <= k < 8 && lower == "honda cbr"
    ensures !IsSubstring(Lower(Brands[k]), lower)
  {
    match k
    case 0 => BrandHasAbsentChar(Brands[0], lower, 0);
    case 1 => BrandHasAbsentChar(Brands[1], lower, 0);
    case 2 => BrandHasAbsentChar(Brands[2], lower, 0);
    case 3 => BrandHasAbsentChar(Brands[3], lower, 2);
    case 4 => BrandHasAbsentChar(Brands[4], lower, 0);
    case 5 => BrandHasAbsentChar(Brands[5], lower, 2);
    case 6 => BrandHasAbsentChar(Brands[6], lower, 0);
    case 7 => BrandHasAbsentChar(Brands[7], lower, 1);
  }

  /** Brands 8 to 15 of the allowlist. */
  lemma MiddleBrandsAbsent(k: int, lower: string)
    requires 8 <= k < 16 && lower == "honda cbr"
    ensures !IsSubstring(Lower(Brands[k]), lower)
  {
    match k
    case 8 => BrandHasAbsentChar(Brands[8], lower, 0);
    case 9 => BrandHasAbsentChar(Brands[9], lower, 0);
    case 10 => BrandHasAbsentChar(Brands[10], lower, 0);
    case 11 => BrandHasAbsentChar(Brands[11], lower, 0);
    case 12 => BrandHasAbsentChar(Brands[12], lower, 0);
    case 13 => BrandHasAbsentChar(Brands[13], lower, 0);
    case 14 => BrandHasAbsentChar(Brands[14], lower, 0);
    case 15 => BrandHasAbsentChar(Brands[15], lower, 0);
  }

  /** Brands 16 to 23 of the allowlist. */
  lemma TrailingBrandsAbsent(k: int, lower: string)
    requires 16 <= k < 24 && lower == "honda cbr"
    ensures !IsSubstring(Lower(Brands[k]), lower)
  {
    match k
    case 16 => BrandHasAbsentChar(Brands[16], lower, 0);
    case 17 => BrandHasAbsentChar(Brands[17], lower, 1);
    case 18 => BrandHasAbsentChar(Brands[18], lower, 0);
    case 19 => BrandHasAbsentChar(Brands[19], lower, 0);
    case 20 => BrandHasAbsentChar(Brands[20], lower, 0);
    case 21 => BrandHasAbsentChar(Brands[21], lower, 0);
    case 22 => BrandHasAbsentChar(Brands[22], lower, 0);
    case 23 => BrandHasAbsentChar(Brands[23], lower, 0);
  }

  /** A brand whose `j`-th character, lower-cased, is nowhere in `lower` does not
      occur in it. */
  lemma BrandHasAbsentChar(brand: string, lower: string, j: int)
    requires 0 <= j < |brand|
    requires forall i :: 0 <= i < |lower| ==> lower[i] != LowerChar(brand[j])
    ensures !IsSubstring(Lower(brand), lower)
  {
    LowerShape(brand);
    MissingCharNotSubstring(Lower(brand), lower, j);
  }
}
