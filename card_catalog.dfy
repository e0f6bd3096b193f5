/**
 * The card selector's pure helpers over the static card-name catalogue: the
 * three deck sections, the rank label and rank order of minor-arcana names,
 * the first letter under which a name is listed, the letter menus, the cards
 * listed under a letter or a suit, and the id-to-name lookup.
 *
 * The catalogue is a parameter; `localeCompare` is represented by a ranking
 * of names that the caller supplies.
 */
module CardCatalog {
  import opened Wrappers
  import opened Text
  import opened Sorting
  import opened TarotTypes

  datatype CardName = CardName(id: string, name: string, baraja: Baraja)

  datatype Categoria = Mayores | Menores

  // ---------------------------------------------------------------------------
  // Lookup by id

  /** The name of the first catalogue entry with this id, or the id itself when there is none. */
  function CardNameById(catalog: seq<CardName>, id: string): (r: string)
    ensures (forall i :: 0 <= i < |catalog| ==> catalog[i].id != id) ==> r == id
    ensures (exists i :: 0 <= i < |catalog| && catalog[i].id == id) ==>
      exists i :: 0 <= i < |catalog| && catalog[i].id == id && r == catalog[i].name
        && forall j :: 0 <= j < i ==> catalog[j].id != id
  {
    if catalog == [] then id
    else if catalog[0].id == id then catalog[0].name
    else
      var r := CardNameById(catalog[1..], id);
      assert forall i :: 1 <= i < |catalog| ==> catalog[i] == catalog[1..][i - 1];
      r
  }

  // ---------------------------------------------------------------------------
  // Deck sections

  const MajorIds: seq<string> := ["el-colgado", "la-muerte", "la-templanza", "el-diablo", "la-torre",
                                   "la-estrella", "la-luna", "el-sol", "el-juicio", "el-mundo"]

  predicate IsMajor(c: CardName)
  {
    c.baraja == Tradicional
    && (HasPrefix(c.id, "el-") || HasPrefix(c.id, "la-") || HasPrefix(c.id, "los-") || c.id in MajorIds)
  }

  predicate IsMinor(c: CardName)
  {
    c.baraja == Tradicional
    && (Contains(c.id, "-de-bastos") || Contains(c.id, "-de-copas")
        || Contains(c.id, "-de-espadas") || Contains(c.id, "-de-oros"))
  }

  predicate IsOsho(c: CardName) { c.baraja == Osho }

  function ArcanosMayores(catalog: seq<CardName>): seq<CardName> { Filter(catalog, IsMajor) }

  function ArcanosMenores(catalog: seq<CardName>): seq<CardName> { Filter(catalog, IsMinor) }

  function CartasOsho(catalog: seq<CardName>): seq<CardName> { Filter(catalog, IsOsho) }

  /** The explicit list of major-arcana ids adds nothing: every one of them already has an article prefix. */
  lemma MajorByPrefix(c: CardName)
    ensures IsMajor(c) <==>
      c.baraja == Tradicional && (HasPrefix(c.id, "el-") || HasPrefix(c.id, "la-") || HasPrefix(c.id, "los-"))
  {
    forall k | 0 <= k < |MajorIds|
      ensures HasPrefix(MajorIds[k], "el-") || HasPrefix(MajorIds[k], "la-")
    {
      var id := MajorIds[k];
      assert id[..3] == "el-" || id[..3] == "la-";
    }
  }

  // ---------------------------------------------------------------------------
  // Minor-arcana ranks

  /** The rank words in the order the label rules try them, lower-cased. */
  const RankWords: seq<string> := ["as", "dos", "tres", "cuatro", "cinco", "seis", "siete",
                                    "ocho", "nueve", "diez", "sota", "caballero", "reina", "rey"]

  const RankLabels: seq<string> := ["As", "2", "3", "4", "5", "6", "7", "8", "9", "10",
                                     "Sota", "Caballero", "Reina", "Rey"]

  /** The same words, capitalised, as the rank order tests them. */
  const RankNames: seq<string> := ["As", "Dos", "Tres", "Cuatro", "Cinco", "Seis", "Siete",
                                    "Ocho", "Nueve", "Diez", "Sota", "Caballero", "Reina", "Rey"]

  /**
   * `/\bw\b/i` matches at `i`: the text there equals the lower-case word `w`
   * ignoring ASCII case, and neither neighbour is a word character.
   */
  predicate WordAt(name: string, w: string, i: nat)
  {
    && i + |w| <= |name|
    && Lower(name[i..i + |w|]) == w
    && (i == 0 || !IsWordChar(name[i - 1]))
    && (i + |w| == |name| || !IsWordChar(name[i + |w|]))
  }

  predicate HasWord(name: string, w: string)
  {
    exists i: nat :: i <= |name| && WordAt(name, w, i)
  }

  /** Whether no rank word before index `k` occurs as a whole word. */
  predicate NoEarlierWord(name: string, k: nat)
    requires k <= |RankWords|
  {
    forall j :: 0 <= j < k ==> !HasWord(name, RankWords[j])
  }

  /** The index of the first word from `k` on that `hit` accepts, or the list's length. */
  function FirstHit(words: seq<string>, hit: string -> bool, k: nat): (r: nat)
    requires k <= |words|
    ensures k <= r <= |words|
    ensures r < |words| ==> hit(words[r])
    ensures forall j :: k <= j < r ==> !hit(words[j])
    decreases |words| - k
  {
    if k == |words| then k
    else if hit(words[k]) then k
    else FirstHit(words, hit, k + 1)
  }

  /**
   * The label of a minor-arcana card: the label of the first rank word, in
   * the order As, Dos, ..., Rey, that occurs in the name as a whole word in
   * any letter case; the name itself when none does.
   */
  function CartaMenorDisplay(name: string): (r: string)
    ensures r == name || r in RankLabels
  {
    var i := FirstHit(RankWords, w => HasWord(name, w), 0);
    if i < |RankWords| then RankLabels[i] else name
  }

  /** A name with no rank word is shown as it is. */
  lemma CartaMenorDisplayNone(name: string)
    requires NoEarlierWord(name, |RankWords|)
    ensures CartaMenorDisplay(name) == name
  {
    var hit := w => HasWord(name, w);
    var i := FirstHit(RankWords, hit, 0);
    assert i == |RankWords| by {
      assert forall j :: 0 <= j < |RankWords| ==> !hit(RankWords[j]);
    }
  }

  /** A name whose first rank word (in the rules' order) is the `k`-th gets the `k`-th label. */
  lemma CartaMenorDisplayFirst(name: string, k: nat)
    requires k < |RankWords| && HasWord(name, RankWords[k]) && NoEarlierWord(name, k)
    ensures CartaMenorDisplay(name) == RankLabels[k]
  {
    var hit := w => HasWord(name, w);
    var i := FirstHit(RankWords, hit, 0);
    assert i >= k by {
      assert forall j :: 0 <= j < k ==> !hit(RankWords[j]);
    }
    assert i <= k by {
      assert hit(RankWords[k]);
    }
  }

  /**
   * The rank a suit's cards are sorted by: 1 + the index of the first rank
   * name the card's name contains (letter case significant), 99 when none.
   */
  function SortValue(name: string): (r: int)
    ensures r == 99 || 1 <= r <= |RankNames|
    ensures (forall j :: 0 <= j < |RankNames| ==> !Contains(name, RankNames[j])) ==> r == 99
    ensures forall j :: (0 <= j < |RankNames| && Contains(name, RankNames[j])
                          && forall i :: 0 <= i < j ==> !Contains(name, RankNames[i])) ==> r == j + 1
  {
    var i := FirstHit(RankNames, w => Contains(name, w), 0);
    if i < |RankNames| then i + 1 else 99
  }

  function NameRank(c: CardName): int { SortValue(c.name) }

  // ---------------------------------------------------------------------------
  // Cards of one suit

  predicate InSuit(palo: string, c: CardName)
  {
    Contains(c.id, "-de-" + Lower(palo))
  }

  predicate ContainsAny(name: string, words: seq<string>)
  {
    exists k :: 0 <= k < |words| && Contains(name, words[k])
  }

  /** The four rows a suit is laid out in. */
  datatype SuitRows = SuitRows(
    asToFive: seq<CardName>,
    sixToTen: seq<CardName>,
    sotaCaballero: seq<CardName>,
    reinaRey: seq<CardName>)

  /** The minor arcana of one suit, stably sorted by rank. */
  function CartasDelPalo(menores: seq<CardName>, palo: string): seq<CardName>
  {
    SortBy(Filter(menores, (c: CardName) => InSuit(palo, c)), NameRank)
  }

  function Row(cartas: seq<CardName>, words: seq<string>): seq<CardName>
  {
    Filter(cartas, (c: CardName) => ContainsAny(c.name, words))
  }

  function FiltrarCartasPorPalo(menores: seq<CardName>, palo: string): SuitRows
  {
    var cartas := CartasDelPalo(menores, palo);
    SuitRows(
      Row(cartas, ["As", "Dos", "Tres", "Cuatro", "Cinco"]),
      Row(cartas, ["Seis", "Siete", "Ocho", "Nueve", "Diez"]),
      Row(cartas, ["Sota", "Caballero"]),
      Row(cartas, ["Reina", "Rey"]))
  }

  /**
   * A suit's cards are exactly the minor arcana whose id contains
   * "-de-<suit>", each as often as in the catalogue, in non-decreasing rank.
   */
  lemma CartasDelPaloSpec(menores: seq<CardName>, palo: string)
    ensures var r := CartasDelPalo(menores, palo);
      && multiset(r) == multiset(Filter(menores, (c: CardName) => InSuit(palo, c)))
      && SortedBy(r, NameRank)
      && forall c :: c in r <==> c in menores && InSuit(palo, c)
  {
    var kept := Filter(menores, (c: CardName) => InSuit(palo, c));
    SortByPermutation(kept, NameRank);
    SortBySorted(kept, NameRank);
    forall c
      ensures c in CartasDelPalo(menores, palo) <==> c in menores && InSuit(palo, c)
    {
      FilterMembership(menores, (c: CardName) => InSuit(palo, c), c);
      assert c in CartasDelPalo(menores, palo) <==> c in multiset(kept);
    }
  }

  /** Cards of the same rank keep their catalogue order. */
  lemma CartasDelPaloStable(menores: seq<CardName>, palo: string, rank: int)
    ensures Filter(CartasDelPalo(menores, palo), KeyIs(NameRank, rank))
         == Filter(Filter(menores, (c: CardName) => InSuit(palo, c)), KeyIs(NameRank, rank))
  {
    SortByStable(Filter(menores, (c: CardName) => InSuit(palo, c)), NameRank, rank);
  }

  /** Each row holds exactly the suit's cards naming one of its ranks, still in rank order. */
  lemma RowSpec(menores: seq<CardName>, palo: string, words: seq<string>)
    ensures var r := Row(CartasDelPalo(menores, palo), words);
      && SortedBy(r, NameRank)
      && forall c :: c in r <==> c in menores && InSuit(palo, c) && ContainsAny(c.name, words)
  {
    var cartas := CartasDelPalo(menores, palo);
    CartasDelPaloSpec(menores, palo);
    FilterSorted(cartas, (c: CardName) => ContainsAny(c.name, words), NameRank);
    forall c
      ensures c in Row(cartas, words) <==> c in menores && InSuit(palo, c) && ContainsAny(c.name, words)
    {
      FilterMembership(cartas, (c: CardName) => ContainsAny(c.name, words), c);
    }
  }

  // ---------------------------------------------------------------------------
  // First letter of a name

  predicate IsCombiningMark(c: char) { '\U{300}' <= c <= '\U{36F}' }

  /** The base letter of a precomposed Latin-1 letter (its canonical decomposition without the mark). */
  function FoldAccent(c: char): char
  {
    if '\U{C0}' <= c <= '\U{C5}' then 'A'
    else if c == '\U{C7}' then 'C'
    else if '\U{C8}' <= c <= '\U{CB}' then 'E'
    else if '\U{CC}' <= c <= '\U{CF}' then 'I'
    else if c == '\U{D1}' then 'N'
    else if '\U{D2}' <= c <= '\U{D6}' then 'O'
    else if '\U{D9}' <= c <= '\U{DC}' then 'U'
    else if c == '\U{DD}' then 'Y'
    else if '\U{E0}' <= c <= '\U{E5}' then 'a'
    else if c == '\U{E7}' then 'c'
    else if '\U{E8}' <= c <= '\U{EB}' then 'e'
    else if '\U{EC}' <= c <= '\U{EF}' then 'i'
    else if c == '\U{F1}' then 'n'
    else if '\U{F2}' <= c <= '\U{F6}' then 'o'
    else if '\U{F9}' <= c <= '\U{FC}' then 'u'
    else if c == '\U{FD}' || c == '\U{FF}' then 'y'
    else c
  }

  /** Decomposition followed by removal of the combining marks U+0300..U+036F. */
  function Deaccent(s: string): (r: string)
    ensures |r| <= |s|
    ensures forall i :: 0 <= i < |r| ==> !IsCombiningMark(r[i])
  {
    if s == [] then []
    else (if IsCombiningMark(s[0]) then [] else [FoldAccent(s[0])]) + Deaccent(s[1..])
  }

  /**
   * Accent stripping works character by character: a combining mark is
   * dropped, and any other character is replaced by its base letter.
   */
  lemma {:induction false} DeaccentConcat(a: string, b: string)
    ensures Deaccent(a + b) == Deaccent(a) + Deaccent(b)
    decreases |a|
  {
    if a != [] {
      var head := if IsCombiningMark(a[0]) then [] else [FoldAccent(a[0])];
      assert (a + b)[0] == a[0] && (a + b)[1..] == a[1..] + b;
      DeaccentConcat(a[1..], b);
      assert Deaccent(a + b) == head + (Deaccent(a[1..]) + Deaccent(b));
      assert Deaccent(a) == head + Deaccent(a[1..]);
    } else {
      assert a + b == b;
    }
  }

  lemma DeaccentChar(c: char)
    ensures Deaccent([c]) == if IsCombiningMark(c) then [] else [FoldAccent(c)]
  {
    assert [c][1..] == [];
  }

  /** Text without combining marks keeps its length, each character folded to its base letter. */
  lemma {:induction false} DeaccentPlain(s: string)
    requires forall i :: 0 <= i < |s| ==> !IsCombiningMark(s[i])
    ensures |Deaccent(s)| == |s|
    ensures forall i :: 0 <= i < |s| ==> Deaccent(s)[i] == FoldAccent(s[i])
    decreases |s|
  {
    if s != [] {
      DeaccentPlain(s[1..]);
      assert forall i :: 1 <= i < |s| ==> Deaccent(s)[i] == Deaccent(s[1..])[i - 1];
    }
  }

  function TrimStart(s: string): (r: string)
    ensures r == [] || !IsSpace(r[0])
    ensures |r| <= |s| && r == s[|s| - |r|..]
    ensures forall i :: 0 <= i < |s| - |r| ==> IsSpace(s[i])
  {
    if s != [] && IsSpace(s[0]) then TrimStart(s[1..]) else s
  }

  function TrimEnd(s: string): (r: string)
    ensures r == [] || !IsSpace(r[|r| - 1])
    ensures |r| <= |s| && r == s[..|r|]
    ensures forall i :: |r| <= i < |s| ==> IsSpace(s[i])
  {
    if s != [] && IsSpace(s[|s| - 1]) then TrimEnd(s[..|s| - 1]) else s
  }

  function Trim(s: string): string { TrimEnd(TrimStart(s)) }

  /** `word` followed by at least one space at the start of `s`, ignoring ASCII case. */
  predicate ArticleAt(s: string, word: string)
  {
    |word| < |s| && Lower(s[..|word|]) == word && IsSpace(s[|word|])
  }

  /** The length of the article `/^(El|La|Los|Las)\s/i` matches, or 0. */
  function ArticleLength(s: string): (k: nat)
    ensures k == 0 || k == 2 || k == 3
    ensures k <= |s|
  {
    if ArticleAt(s, "el") then 2
    else if ArticleAt(s, "la") then 2
    else if ArticleAt(s, "los") then 3
    else if ArticleAt(s, "las") then 3
    else 0
  }

  /** `name.replace(/^(El|La|Los|Las)\s+/i, '')`: the article and all the whitespace after it. */
  function StripArticle(name: string): string
  {
    var k := ArticleLength(name);
    if k == 0 then name else TrimStart(name[k..])
  }

  /** The first letter of a name once trimmed and stripped of accents, upper-cased (ASCII). */
  function FirstLetterOf(s: string): (r: string)
    ensures |r| <= 1
    ensures r != [] ==> !IsAsciiLower(r[0]) && !IsCombiningMark(r[0])
  {
    var plain := Deaccent(Trim(s));
    if plain == [] then "" else [UpperChar(plain[0])]
  }

  function FirstLetterForSorting(name: string): (r: string)
    ensures |r| <= 1
  {
    FirstLetterOf(StripArticle(name))
  }

  lemma LowerPrefix(a: string, n: nat)
    requires n <= |a|
    ensures Lower(a[..n]) == Lower(a)[..n]
  {
  }

  lemma ArticleLengthIs(s: string, article: string)
    requires Lower(article) in ["el", "la", "los", "las"]
    requires |article| < |s| && s[..|article|] == article && IsSpace(s[|article|])
    ensures ArticleLength(s) == |article|
  {
    var w := Lower(article);
    var n := |article|;
    assert s[..2] == article[..2];
    LowerPrefix(article, 2);
    assert Lower(s[..2]) == w[..2];
    if n == 3 {
      assert Lower(s[..3]) == w;
      assert LowerChar(s[2]) == w[2];
      assert !IsSpace(s[2]);
    }
  }

  /**
   * A leading article (El, La, Los or Las in any letter case) and the
   * whitespace after it do not count towards the first letter.
   */
  lemma ArticleIgnored(article: string, ws: string, rest: string)
    requires Lower(article) in ["el", "la", "los", "las"]
    requires |ws| >= 1 && forall i :: 0 <= i < |ws| ==> IsSpace(ws[i])
    ensures FirstLetterForSorting(article + ws + rest) == FirstLetterOf(rest)
  {
    var s := article + ws + rest;
    var n := |article|;
    assert s[..n] == article;
    assert s[n] == ws[0];
    ArticleLengthIs(s, article);
    assert s[n..] == ws + rest;
    SkipSpaces(ws, rest);
    TrimStartTwice(rest);
  }

  lemma {:induction false} SkipSpaces(ws: string, rest: string)
    requires forall i :: 0 <= i < |ws| ==> IsSpace(ws[i])
    ensures TrimStart(ws + rest) == TrimStart(rest)
  {
    if ws == [] {
      assert ws + rest == rest;
    } else {
      assert (ws + rest)[0] == ws[0] && IsSpace(ws[0]);
      assert (ws + rest)[1..] == ws[1..] + rest;
      assert TrimStart(ws + rest) == TrimStart(ws[1..] + rest);
      SkipSpaces(ws[1..], rest);
    }
  }

  lemma TrimStartTwice(s: string)
    ensures Trim(TrimStart(s)) == Trim(s)
  {
    var t := TrimStart(s);
    assert TrimStart(t) == t;
  }

  /** A name's first letter is an upper-case ASCII letter when its cleaned name starts with any ASCII letter, accented or not. */
  lemma FirstLetterOfAscii(s: string, c: char)
    requires Trim(s) != [] && Trim(s)[0] == c
    requires IsAsciiUpper(FoldAccent(c)) || IsAsciiLower(FoldAccent(c))
    ensures FirstLetterOf(s) == [UpperChar(FoldAccent(c))]
    ensures IsAsciiUpper(FirstLetterOf(s)[0])
  {
    var t := Trim(s);
    assert t == [t[0]] + t[1..];
    assert !IsCombiningMark(c);
  }

  // ---------------------------------------------------------------------------
  // Letter menus

  /** The order `Array.prototype.sort` puts single-letter strings in: by character code, "" first. */
  function LetterKey(l: string): int
  {
    if l == [] then -1 else l[0] as int
  }

  predicate IsLetterMenu(letters: seq<string>)
  {
    && (forall i :: 0 <= i < |letters| ==> |letters[i]| <= 1)
    && forall i, j :: 0 <= i < j < |letters| ==> LetterKey(letters[i]) < LetterKey(letters[j])
  }

  function InsertLetter(letters: seq<string>, l: string): (r: seq<string>)
    requires IsLetterMenu(letters) && |l| <= 1
    ensures IsLetterMenu(r)
    ensures forall x :: x in r <==> x in letters || x == l
  {
    if letters == [] then [l]
    else if LetterKey(l) < LetterKey(letters[0]) then [l] + letters
    else if LetterKey(l) == LetterKey(letters[0]) then
      assert l == letters[0] by { assert |l| <= 1 && |letters[0]| <= 1; }
      letters
    else
      var rest := InsertLetter(letters[1..], l);
      assert forall x :: x in letters <==> x == letters[0] || x in letters[1..];
      assert forall j :: 0 <= j < |rest| ==> LetterKey(letters[0]) < LetterKey(rest[j]) by {
        forall j | 0 <= j < |rest|
          ensures LetterKey(letters[0]) < LetterKey(rest[j])
        {
          assert rest[j] in rest;
          if rest[j] != l {
            var m :| 0 <= m < |letters[1..]| && letters[1..][m] == rest[j];
            assert letters[m + 1] == rest[j];
          }
        }
      }
      [letters[0]] + rest
  }

  /** The first letter of each card, in catalogue order. */
  function FirstLetters(cards: seq<CardName>): (r: seq<string>)
    ensures |r| == |cards|
    ensures forall i :: 0 <= i < |r| ==> r[i] == FirstLetterForSorting(cards[i].name) && |r[i]| <= 1
  {
    seq(|cards|, i requires 0 <= i < |cards| => FirstLetterForSorting(cards[i].name))
  }

  /** The distinct strings of `ls`, in sorted order (`[...new Set(ls)].sort()`). */
  method DistinctSorted(ls: seq<string>) returns (letters: seq<string>)
    requires forall i :: 0 <= i < |ls| ==> |ls[i]| <= 1
    ensures IsLetterMenu(letters)
    ensures forall l :: l in letters <==> l in ls
  {
    letters := [];
    var i := 0;
    while i < |ls|
      invariant 0 <= i <= |ls|
      invariant IsLetterMenu(letters)
      invariant forall l :: l in letters <==> l in ls[..i]
    {
      assert ls[..i + 1] == ls[..i] + [ls[i]];
      letters := InsertLetter(letters, ls[i]);
      i := i + 1;
    }
    assert ls[..i] == ls;
  }

  /** The distinct first letters of the given cards, in sorted order (the menu's letter buttons). */
  method LetterMenu(cards: seq<CardName>) returns (letters: seq<string>)
    ensures IsLetterMenu(letters)
    ensures forall l :: l in letters <==> exists i :: 0 <= i < |cards| && FirstLetterForSorting(cards[i].name) == l
  {
    var firsts := FirstLetters(cards);
    letters := DistinctSorted(firsts);
    forall l | l in letters
      ensures exists i :: 0 <= i < |cards| && FirstLetterForSorting(cards[i].name) == l
    {
      var i :| 0 <= i < |firsts| && firsts[i] == l;
    }
  }

  // ---------------------------------------------------------------------------
  // Cards under a letter

  /** Whether a card's first letter, as the letter menu buckets it, is `letra`. */
  function StartsWithLetter(letra: string): CardName -> bool
  {
    (c: CardName) => FirstLetterForSorting(c.name) == letra
  }

  /** A card's place in the names' collation order `rank`. */
  function ByName(rank: string -> int): CardName -> int
  {
    (c: CardName) => rank(c.name)
  }

  /** The section a letter lists: the Osho deck, or the major arcana when that category is chosen. */
  function LetterSection(catalog: seq<CardName>, baraja: Baraja, categoria: Option<Categoria>): seq<CardName>
  {
    if baraja == Osho then CartasOsho(catalog)
    else if categoria == Some(Mayores) then ArcanosMayores(catalog)
    else []
  }

  /**
   * The cards listed under a letter: Osho cards, or traditional major arcana
   * when that category is chosen, whose first letter is `letra`, sorted by
   * `rank` (the names' collation order); nothing otherwise.
   */
  function FiltrarCartasPorLetra(catalog: seq<CardName>, letra: string, baraja: Baraja,
                                 categoria: Option<Categoria>, rank: string -> int): seq<CardName>
  {
    if baraja == Osho || categoria == Some(Mayores) then
      SortBy(Filter(LetterSection(catalog, baraja, categoria), StartsWithLetter(letra)), ByName(rank))
    else []
  }

  /**
   * The list under a letter holds the section's cards with that first letter,
   * each as often as in the catalogue, sorted by rank, with cards of equal rank
   * in catalogue order.
   */
  lemma FiltrarCartasPorLetraSpec(catalog: seq<CardName>, letra: string, baraja: Baraja,
                                  categoria: Option<Categoria>, rank: string -> int)
    ensures var r := FiltrarCartasPorLetra(catalog, letra, baraja, categoria, rank);
      var kept := Filter(LetterSection(catalog, baraja, categoria), StartsWithLetter(letra));
      && SortedBy(r, ByName(rank))
      && (forall c :: c in r <==>
           c in catalog && FirstLetterForSorting(c.name) == letra
           && (if baraja == Osho then IsOsho(c) else categoria == Some(Mayores) && IsMajor(c)))
      && multiset(r) == multiset(kept)
      && (forall k :: Filter(r, KeyIs(ByName(rank), k)) == Filter(kept, KeyIs(ByName(rank), k)))
  {
    var key := ByName(rank);
    var p := StartsWithLetter(letra);
    if baraja == Osho || categoria == Some(Mayores) {
      var section := if baraja == Osho then IsOsho else IsMajor;
      assert LetterSection(catalog, baraja, categoria) == Filter(catalog, section);
      var kept := Filter(Filter(catalog, section), p);
      SortFilterMembers(Filter(catalog, section), p, key);
      SortByPermutation(kept, key);
      forall k {
        SortByStable(kept, key, k);
      }
      forall c {
        FilterMembership(catalog, section, c);
      }
    }
  }
}
