/**
 * The kana catalog and the active-set filter: which catalog entries are in
 * scope for a drill session, given the learner's settings.
 */
module Kana {

  /** The writing system an entry belongs to (the `set` tag of the TypeScript catalog). */
  datatype Script = Hiragana | Katakana

  /** The row (category) an entry is listed under. */
  datatype Row = A | Ka | Sa | Ta | Na | Ha | Ma | Ya | Ra | Wa | Dakuten | Combo

  /** Accepted romanizations; the first one is the canonical display form. */
  type Readings = rs: seq<string> | |rs| > 0 witness ["a"]

  /** One catalog item: the glyph, its accepted readings, its row and its writing system. */
  datatype Entry = Entry(kana: string, readings: Readings, row: Row, script: Script)

  type HiraganaEntry = e: Entry | e.script == Hiragana witness Entry("あ", ["a"], A, Hiragana)
  type KatakanaEntry = e: Entry | e.script == Katakana witness Entry("ア", ["a"], A, Katakana)

  /** The learner's preferences that decide the active set, plus the display theme. */
  datatype Settings = Settings(hiragana: bool, katakana: bool, rows: seq<Row>, theme: string)

  /** Builds a hiragana entry; the result type fixes the script tag. */
  function H(kana: string, readings: Readings, row: Row): HiraganaEntry
  {
    Entry(kana, readings, row, Hiragana)
  }

  /** Builds a katakana entry; the result type fixes the script tag. */
  function K(kana: string, readings: Readings, row: Row): KatakanaEntry
  {
    Entry(kana, readings, row, Katakana)
  }

  const HiraganaARow: seq<HiraganaEntry> := [
    H("あ", ["a"], A),
    H("い", ["i"], A),
    H("う", ["u"], A),
    H("え", ["e"], A),
    H("お", ["o"], A)
  ]

  const HiraganaKaRow: seq<HiraganaEntry> := [
    H("か", ["ka"], Ka),
    H("き", ["ki"], Ka),
    H("く", ["ku"], Ka),
    H("け", ["ke"], Ka),
    H("こ", ["ko"], Ka)
  ]

  const HiraganaSaRow: seq<HiraganaEntry> := [
    H("さ", ["sa"], Sa),
    H("し", ["shi", "si"], Sa),
    H("す", ["su"], Sa),
    H("せ", ["se"], Sa),
    H("そ", ["so"], Sa)
  ]

  const HiraganaTaRow: seq<HiraganaEntry> := [
    H("た", ["ta"], Ta),
    H("ち", ["chi", "ti"], Ta),
    H("つ", ["tsu", "tu"], Ta),
    H("て", ["te"], Ta),
    H("と", ["to"], Ta)
  ]

  const HiraganaNaRow: seq<HiraganaEntry> := [
    H("な", ["na"], Na),
    H("に", ["ni"], Na),
    H("ぬ", ["nu"], Na),
    H("ね", ["ne"], Na),
    H("の", ["no"], Na)
  ]

  const HiraganaHaRow: seq<HiraganaEntry> := [
    H("は", ["ha"], Ha),
    H("ひ", ["hi"], Ha),
    H("ふ", ["fu", "hu"], Ha),
    H("へ", ["he"], Ha),
    H("ほ", ["ho"], Ha)
  ]

  const HiraganaMaRow: seq<HiraganaEntry> := [
    H("ま", ["ma"], Ma),
    H("み", ["mi"], Ma),
    H("む", ["mu"], Ma),
    H("め", ["me"], Ma),
    H("も", ["mo"], Ma)
  ]

  const HiraganaYaRow: seq<HiraganaEntry> := [
    H("や", ["ya"], Ya),
    H("ゆ", ["yu"], Ya),
    H("よ", ["yo"], Ya)
  ]

  const HiraganaRaRow: seq<HiraganaEntry> := [
    H("ら", ["ra"], Ra),
    H("り", ["ri"], Ra),
    H("る", ["ru"], Ra),
    H("れ", ["re"], Ra),
    H("ろ", ["ro"], Ra)
  ]

  const HiraganaWaRow: seq<HiraganaEntry> := [
    H("わ", ["wa"], Wa),
    H("を", ["wo", "o"], Wa),
    H("ん", ["n"], Wa)
  ]

  const HiraganaDakuten1: seq<HiraganaEntry> := [
    H("が", ["ga"], Dakuten),
    H("ぎ", ["gi"], Dakuten),
    H("ぐ", ["gu"], Dakuten),
    H("げ", ["ge"], Dakuten),
    H("ご", ["go"], Dakuten),
    H("ざ", ["za"], Dakuten),
    H("じ", ["ji", "zi"], Dakuten),
    H("ず", ["zu"], Dakuten),
    H("ぜ", ["ze"], Dakuten),
    H("ぞ", ["zo"], Dakuten)
  ]

  const HiraganaDakuten2: seq<HiraganaEntry> := [
    H("だ", ["da"], Dakuten),
    H("ぢ", ["di", "ji", "dzi"], Dakuten),
    H("づ", ["du", "zu", "dzu"], Dakuten),
    H("で", ["de"], Dakuten),
    H("ど", ["do"], Dakuten)
  ]

  const HiraganaDakuten3: seq<HiraganaEntry> := [
    H("ば", ["ba"], Dakuten),
    H("び", ["bi"], Dakuten),
    H("ぶ", ["bu"], Dakuten),
    H("べ", ["be"], Dakuten),
    H("ぼ", ["bo"], Dakuten),
    H("ぱ", ["pa"], Dakuten),
    H("ぴ", ["pi"], Dakuten),
    H("ぷ", ["pu"], Dakuten),
    H("ぺ", ["pe"], Dakuten),
    H("ぽ", ["po"], Dakuten)
  ]

  const HiraganaCombo1: seq<HiraganaEntry> := [
    H("きゃ", ["kya"], Combo),
    H("きゅ", ["kyu"], Combo),
    H("きょ", ["kyo"], Combo),
    H("しゃ", ["sha", "sya"], Combo),
    H("しゅ", ["shu", "syu"], Combo),
    H("しょ", ["sho", "syo"], Combo),
    H("ちゃ", ["cha", "tya"], Combo),
    H("ちゅ", ["chu", "tyu"], Combo),
    H("ちょ", ["cho", "tyo"], Combo)
  ]

  const HiraganaCombo2: seq<HiraganaEntry> := [
    H("にゃ", ["nya"], Combo),
    H("にゅ", ["nyu"], Combo),
    H("にょ", ["nyo"], Combo),
    H("ひゃ", ["hya"], Combo),
    H("ひゅ", ["hyu"], Combo),
    H("ひょ", ["hyo"], Combo),
    H("みゃ", ["mya"], Combo),
    H("みゅ", ["myu"], Combo),
    H("みょ", ["myo"], Combo)
  ]

  const HiraganaCombo3: seq<HiraganaEntry> := [
    H("りゃ", ["rya"], Combo),
    H("りゅ", ["ryu"], Combo),
    H("りょ", ["ryo"], Combo),
    H("ぎゃ", ["gya"], Combo),
    H("ぎゅ", ["gyu"], Combo),
    H("ぎょ", ["gyo"], Combo),
    H("じゃ", ["ja", "jya", "zya"], Combo),
    H("じゅ", ["ju", "jyu", "zyu"], Combo),
    H("じょ", ["jo", "jyo", "zyo"], Combo)
  ]

  const HiraganaCombo4: seq<HiraganaEntry> := [
    H("びゃ", ["bya"], Combo),
    H("びゅ", ["byu"], Combo),
    H("びょ", ["byo"], Combo),
    H("ぴゃ", ["pya"], Combo),
    H("ぴゅ", ["pyu"], Combo),
    H("ぴょ", ["pyo"], Combo)
  ]

  /** The hiragana catalog, row by row in the order `kana.ts` lists it. */
  const HiraganaTable: seq<HiraganaEntry> :=
    HiraganaARow + HiraganaKaRow + HiraganaSaRow + HiraganaTaRow + HiraganaNaRow
    + HiraganaHaRow + HiraganaMaRow + HiraganaYaRow + HiraganaRaRow + HiraganaWaRow
    + HiraganaDakuten1 + HiraganaDakuten2 + HiraganaDakuten3 + HiraganaCombo1
    + HiraganaCombo2 + HiraganaCombo3 + HiraganaCombo4

  const KatakanaARow: seq<KatakanaEntry> := [
    K("ア", ["a"], A),
    K("イ", ["i"], A),
    K("ウ", ["u"], A),
    K("エ", ["e"], A),
    K("オ", ["o"], A)
  ]

  const KatakanaKaRow: seq<KatakanaEntry> := [
    K("カ", ["ka"], Ka),
    K("キ", ["ki"], Ka),
    K("ク", ["ku"], Ka),
    K("ケ", ["ke"], Ka),
    K("コ", ["ko"], Ka)
  ]

  const KatakanaSaRow: seq<KatakanaEntry> := [
    K("サ", ["sa"], Sa),
    K("シ", ["shi", "si"], Sa),
    K("ス", ["su"], Sa),
    K("セ", ["se"], Sa),
    K("ソ", ["so"], Sa)
  ]

  const KatakanaTaRow: seq<KatakanaEntry> := [
    K("タ", ["ta"], Ta),
    K("チ", ["chi", "ti"], Ta),
    K("ツ", ["tsu", "tu"], Ta),
    K("テ", ["te"], Ta),
    K("ト", ["to"], Ta)
  ]

  const KatakanaNaRow: seq<KatakanaEntry> := [
    K("ナ", ["na"], Na),
    K("ニ", ["ni"], Na),
    K("ヌ", ["nu"], Na),
    K("ネ", ["ne"], Na),
    K("ノ", ["no"], Na)
  ]

  const KatakanaHaRow: seq<KatakanaEntry> := [
    K("ハ", ["ha"], Ha),
    K("ヒ", ["hi"], Ha),
    K("フ", ["fu", "hu"], Ha),
    K("ヘ", ["he"], Ha),
    K("ホ", ["ho"], Ha)
  ]

  const KatakanaMaRow: seq<KatakanaEntry> := [
    K("マ", ["ma"], Ma),
    K("ミ", ["mi"], Ma),
    K("ム", ["mu"], Ma),
    K("メ", ["me"], Ma),
    K("モ", ["mo"], Ma)
  ]

  const KatakanaYaRow: seq<KatakanaEntry> := [
    K("ヤ", ["ya"], Ya),
    K("ユ", ["yu"], Ya),
    K("ヨ", ["yo"], Ya)
  ]

  const KatakanaRaRow: seq<KatakanaEntry> := [
    K("ラ", ["ra"], Ra),
    K("リ", ["ri"], Ra),
    K("ル", ["ru"], Ra),
    K("レ", ["re"], Ra),
    K("ロ", ["ro"], Ra)
  ]

  const KatakanaWaRow: seq<KatakanaEntry> := [
    K("ワ", ["wa"], Wa),
    K("ヲ", ["wo", "o"], Wa),
    K("ン", ["n"], Wa)
  ]

  const KatakanaDakuten1: seq<KatakanaEntry> := [
    K("ガ", ["ga"], Dakuten),
    K("ギ", ["gi"], Dakuten),
    K("グ", ["gu"], Dakuten),
    K("ゲ", ["ge"], Dakuten),
    K("ゴ", ["go"], Dakuten),
    K("ザ", ["za"], Dakuten),
    K("ジ", ["ji", "zi"], Dakuten),
    K("ズ", ["zu"], Dakuten),
    K("ゼ", ["ze"], Dakuten),
    K("ゾ", ["zo"], Dakuten)
  ]

  const KatakanaDakuten2: seq<KatakanaEntry> := [
    K("ダ", ["da"], Dakuten),
    K("ヂ", ["di", "ji", "dzi"], Dakuten),
    K("ヅ", ["du", "zu", "dzu"], Dakuten),
    K("デ", ["de"], Dakuten),
    K("ド", ["do"], Dakuten)
  ]

  const KatakanaDakuten3: seq<KatakanaEntry> := [
    K("バ", ["ba"], Dakuten),
    K("ビ", ["bi"], Dakuten),
    K("ブ", ["bu"], Dakuten),
    K("ベ", ["be"], Dakuten),
    K("ボ", ["bo"], Dakuten),
    K("パ", ["pa"], Dakuten),
    K("ピ", ["pi"], Dakuten),
    K("プ", ["pu"], Dakuten),
    K("ペ", ["pe"], Dakuten),
    K("ポ", ["po"], Dakuten)
  ]

  const KatakanaCombo1: seq<KatakanaEntry> := [
    K("キャ", ["kya"], Combo),
    K("キュ", ["kyu"], Combo),
    K("キョ", ["kyo"], Combo),
    K("シャ", ["sha", "sya"], Combo),
    K("シュ", ["shu", "syu"], Combo),
    K("ショ", ["sho", "syo"], Combo),
    K("チャ", ["cha", "tya"], Combo),
    K("チュ", ["chu", "tyu"], Combo),
    K("チョ", ["cho", "tyo"], Combo)
  ]

  const KatakanaCombo2: seq<KatakanaEntry> := [
    K("ニャ", ["nya"], Combo),
    K("ニュ", ["nyu"], Combo),
    K("ニョ", ["nyo"], Combo),
    K("ヒャ", ["hya"], Combo),
    K("ヒュ", ["hyu"], Combo),
    K("ヒョ", ["hyo"], Combo),
    K("ミャ", ["mya"], Combo),
    K("ミュ", ["myu"], Combo),
    K("ミョ", ["myo"], Combo)
  ]

  const KatakanaCombo3: seq<KatakanaEntry> := [
    K("リャ", ["rya"], Combo),
    K("リュ", ["ryu"], Combo),
    K("リョ", ["ryo"], Combo),
    K("ギャ", ["gya"], Combo),
    K("ギュ", ["gyu"], Combo),
    K("ギョ", ["gyo"], Combo),
    K("ジャ", ["ja", "jya", "zya"], Combo),
    K("ジュ", ["ju", "jyu", "zyu"], Combo),
    K("ジョ", ["jo", "jyo", "zyo"], Combo)
  ]

  const KatakanaCombo4: seq<KatakanaEntry> := [
    K("ビャ", ["bya"], Combo),
    K("ビュ", ["byu"], Combo),
    K("ビョ", ["byo"], Combo),
    K("ピャ", ["pya"], Combo),
    K("ピュ", ["pyu"], Combo),
    K("ピョ", ["pyo"], Combo)
  ]

  /** The katakana catalog, row by row in the order `kana.ts` lists it. */
  const KatakanaTable: seq<KatakanaEntry> :=
    KatakanaARow + KatakanaKaRow + KatakanaSaRow + KatakanaTaRow + KatakanaNaRow
    + KatakanaHaRow + KatakanaMaRow + KatakanaYaRow + KatakanaRaRow + KatakanaWaRow
    + KatakanaDakuten1 + KatakanaDakuten2 + KatakanaDakuten3 + KatakanaCombo1
    + KatakanaCombo2 + KatakanaCombo3 + KatakanaCombo4

  /** The whole catalog: every hiragana entry, then every katakana entry. */
  const Catalog: seq<Entry> := HiraganaTable + KatakanaTable

  /** The filter's test: the entry's writing system is enabled and its row is selected. */
  predicate Enabled(s: Settings, e: Entry)
  {
    && ((e.script == Hiragana && s.hiragana) || (e.script == Katakana && s.katakana))
    && e.row in s.rows
  }

  /** The entries of `entries` that `s` enables, in their original order. */
  function Select(entries: seq<Entry>, s: Settings): (r: seq<Entry>)
    ensures |r| <= |entries|
  {
    if entries == [] then []
    else if Enabled(s, entries[0]) then [entries[0]] + Select(entries[1..], s)
    else Select(entries[1..], s)
  }

  /** An entry is selected exactly when it is one of `entries` and the settings enable it. */
  lemma {:induction false} SelectMembers(entries: seq<Entry>, s: Settings)
    ensures forall e :: e in Select(entries, s) <==> e in entries && Enabled(s, e)
  {
    if entries != [] {
      SelectMembers(entries[1..], s);
      assert entries == [entries[0]] + entries[1..];
    }
  }

  /** The active set: the catalog entries in scope under `s`. */
  function ActiveKana(s: Settings): (r: seq<Entry>)
    ensures forall e :: e in r <==> e in Catalog && Enabled(s, e)
  {
    SelectMembers(Catalog, s);
    Select(Catalog, s)
  }

  /** `a` can be obtained from `b` by deleting elements, keeping the order of the rest. */
  predicate IsSubsequence<T(==)>(a: seq<T>, b: seq<T>)
    decreases |b|
  {
    || a == []
    || (&& b != []
        && ((a[0] == b[0] && IsSubsequence(a[1..], b[1..])) || IsSubsequence(a, b[1..])))
  }

  /** Settings `s2` enable at least what `s1` enables. */
  predicate EnablesMore(s1: Settings, s2: Settings)
  {
    && (s1.hiragana ==> s2.hiragana)
    && (s1.katakana ==> s2.katakana)
    && (forall row :: row in s1.rows ==> row in s2.rows)
  }

  /** The filter is stable: it keeps the order of the entries it keeps. */
  lemma {:induction false} SelectIsSubsequence(entries: seq<Entry>, s: Settings)
    ensures IsSubsequence(Select(entries, s), entries)
  {
    if entries != [] {
      SelectIsSubsequence(entries[1..], s);
    }
  }

  /** Enabling more writing systems or rows never drops an entry, nor reorders the kept ones. */
  lemma {:induction false} SelectMonotone(entries: seq<Entry>, s1: Settings, s2: Settings)
    requires EnablesMore(s1, s2)
    ensures IsSubsequence(Select(entries, s1), Select(entries, s2))
    ensures forall e :: e in Select(entries, s1) ==> e in Select(entries, s2)
  {
    if entries != [] {
      SelectMonotone(entries[1..], s1, s2);
      var r1, r2 := Select(entries, s1), Select(entries, s2);
      if Enabled(s1, entries[0]) {
        assert Enabled(s2, entries[0]);
        assert r1[1..] == Select(entries[1..], s1);
        assert r2[1..] == Select(entries[1..], s2);
      } else if Enabled(s2, entries[0]) {
        assert r2[1..] == Select(entries[1..], s2);
        assert r1 == Select(entries[1..], s1);
      }
    }
  }

  /** With no writing system enabled, or no row selected, nothing is active. */
  lemma {:induction false} NothingEnabledSelectsNothing(entries: seq<Entry>, s: Settings)
    requires (!s.hiragana && !s.katakana) || s.rows == []
    ensures Select(entries, s) == []
  {
    if entries != [] {
      NothingEnabledSelectsNothing(entries[1..], s);
    }
  }

  /** The catalog is the 104 hiragana entries followed by the 104 katakana entries, each with its own tag. */
  lemma CatalogLayout()
    ensures |HiraganaTable| == 104 && |KatakanaTable| == 104
    ensures forall i :: 0 <= i < |Catalog| ==>
              Catalog[i].script == (if i < |HiraganaTable| then Hiragana else Katakana)
  {
  }

  /** Every catalog entry has at least one reading, so its canonical form `readings[0]` exists. */
  lemma CatalogReadingsNonEmpty()
    ensures forall i :: 0 <= i < |Catalog| ==> |Catalog[i].readings| > 0
  {
  }
}
