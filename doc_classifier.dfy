/** The rule-based document-type detector: counts, per category, the keywords found in the
    lower-cased text, picks the first category with the highest count and derives a bounded
    confidence from the count and the lead over the runner-up. */
module Classifier {
  import opened Text
  import opened DocModel

  /** The categories of `TYPE_KEYWORDS`, in registration order. */
  const Categories: seq<NormType> := [
    InsurancePolicy, ClaimForm, IncidentReport, ProofOfOwnership, RepairEstimate,
    MedicalReport, IdDocument, BankDetails, EvidenceOfDamage]

  /** `TYPE_KEYWORDS`: the keyword list of each category, in the order of `Categories`. */
  const KeywordTable: seq<seq<string>> := [
    // InsurancePolicy
    ["policy number", "insurance policy", "police d'assurance", "numero de police",
      "num\U{e9}ro de police", "coverage", "couverture", "premium", "prime"],
    // ClaimForm
    ["claim number", "claim form", "declaration de sinistre", "d\U{e9}claration de sinistre",
      "formulaire de reclamation", "formulaire de r\U{e9}clamation", "numero de sinistre",
      "num\U{e9}ro de sinistre", "declaration of loss"],
    // IncidentReport
    ["police report", "rapport de police", "accident report", "incident report", "constat",
      "proces verbal", "proc\U{e8}s verbal", "proc\U{e8}s-verbal"],
    // ProofOfOwnership
    ["invoice", "facture", "receipt", "recu", "re\U{e7}u", "bill of sale", "acte de vente",
      "proof of ownership", "preuve de propriete", "preuve de propri\U{e9}t\U{e9}"],
    // RepairEstimate
    ["repair estimate", "devis", "quote", "repair invoice", "facture de reparation",
      "facture de r\U{e9}paration", "atelier", "garage"],
    // MedicalReport
    ["medical report", "rapport medical", "rapport m\U{e9}dical", "diagnosis", "diagnostic",
      "hospital", "hopital", "h\U{f4}pital", "doctor", "medecin", "m\U{e9}decin", "patient",
      "facture medicale", "facture m\U{e9}dicale"],
    // IdDocument
    ["passport", "passeport", "identity card", "carte d'identite", "carte d'identit\U{e9}",
      "carte nationale", "driver license", "permis de conduire", "national id",
      "republique francaise", "r\U{e9}publique fran\U{e7}aise"],
    // BankDetails
    ["iban", "bic", "rib", "bank details", "coordonnees bancaires", "coordonn\U{e9}es bancaires",
      "account number", "numero de compte", "num\U{e9}ro de compte", "bank account"],
    // EvidenceOfDamage
    ["damage", "dommage", "photo", "evidence", "degat", "d\U{e9}g\U{e2}t", "sinistre", "bris"]]

  /** How many of `kws` occur in `t` (each list entry counted once). */
  function KeywordCount(kws: seq<string>, t: string): (c: nat)
    ensures c <= |kws|
    ensures c == 0 <==> forall j :: 0 <= j < |kws| ==> !Contains(t, kws[j])
  {
    if kws == [] then 0
    else KeywordCount(kws[..|kws| - 1], t) + (if Contains(t, kws[|kws| - 1]) then 1 else 0)
  }

  /** The `hits` dictionary after the first `k` categories of `cats`, whose keyword lists are
      those of `table`, in insertion order: every such category with at least one keyword in
      `t`, paired with its count. The properties below hold for any such table. */
  function HitsOf(cats: seq<NormType>, table: seq<seq<string>>, k: nat, t: string): seq<(NormType, nat)>
    requires k <= |cats| == |table|
  {
    if k == 0 then []
    else
      var c := KeywordCount(table[k - 1], t);
      HitsOf(cats, table, k - 1, t) + (if c > 0 then [(cats[k - 1], c)] else [])
  }

  /** The `hits` dictionary of `TYPE_KEYWORDS` after the first `k` categories. */
  function Hits(k: nat, t: string): seq<(NormType, nat)>
    requires k <= |Categories|
  {
    HitsOf(Categories, KeywordTable, k, t)
  }

  /** The largest count of `hits` (0 when it is empty). */
  function MaxCount(hits: seq<(NormType, nat)>): (m: nat)
    ensures forall i :: 0 <= i < |hits| ==> hits[i].1 <= m
    ensures hits != [] ==> exists i :: 0 <= i < |hits| && hits[i].1 == m
    ensures hits == [] ==> m == 0
  {
    if hits == [] then 0
    else
      var m := MaxCount(hits[..|hits| - 1]);
      if hits[|hits| - 1].1 > m then hits[|hits| - 1].1 else m
  }

  /** `max(hits, key=hits.get)`: the first entry holding the largest count. */
  function FirstMaxIndex(hits: seq<(NormType, nat)>): (w: nat)
    requires hits != []
    ensures w < |hits| && hits[w].1 == MaxCount(hits)
    ensures forall i :: 0 <= i < w ==> hits[i].1 < MaxCount(hits)
  {
    FirstIndexWith(hits, MaxCount(hits), 0)
  }

  function FirstIndexWith(hits: seq<(NormType, nat)>, m: nat, from: nat): (w: nat)
    requires from <= |hits| && exists i :: from <= i < |hits| && hits[i].1 == m
    ensures from <= w < |hits| && hits[w].1 == m
    ensures forall i :: from <= i < w ==> hits[i].1 != m
    decreases |hits| - from
  {
    if hits[from].1 == m then from else FirstIndexWith(hits, m, from + 1)
  }

  /** `sorted(hits.values(), reverse=True)[1]`: the largest count once the winner's entry is
      set aside (0 with a single entry). */
  function SecondBest(hits: seq<(NormType, nat)>): nat
    requires hits != []
  {
    var w := FirstMaxIndex(hits);
    MaxCount(hits[..w] + hits[w + 1..])
  }

  function MinInt(a: int, b: int): int { if a <= b then a else b }

  /** `max(0.0, min(0.95, 0.55 + 0.10 * min(best, 4) + 0.10 * min(gap, 3)))` */
  function Confidence(best: nat, second: nat): real {
    var raw := 0.55 + 0.10 * MinInt(best, 4) as real + 0.10 * MinInt(best - second, 3) as real;
    var capped := if raw < 0.95 then raw else 0.95;
    if capped < 0.0 then 0.0 else capped
  }

  /** `detect_type_rule_based`: the detected type, its confidence and the hits per category. */
  method DetectTypeRuleBased(text: string) returns (detected: NormType, conf: real, hits: seq<(NormType, nat)>)
    ensures hits == Hits(|Categories|, Lower(text))
    ensures hits == [] ==> detected == Unrelated && conf == 0.35
    ensures hits != [] ==> detected == hits[FirstMaxIndex(hits)].0
    ensures hits != [] ==> conf == Confidence(MaxCount(hits), SecondBest(hits))
  {
    var t := Lower(text);
    hits := [];
    var k := 0;
    while k < |Categories|
      invariant k <= |Categories|
      invariant hits == Hits(k, t)
    {
      var count := CountKeywords(KeywordTable[k], t);
      if count > 0 {
        hits := hits + [(Categories[k], count)];
      }
      k := k + 1;
    }
    if hits == [] {
      return Unrelated, 0.35, [];
    }
    var w := FirstMaxIndex(hits);
    detected := hits[w].0;
    conf := Confidence(hits[w].1, SecondBest(hits));
  }

  /** The inner loop: how many keywords of one category occur in `t`. */
  method CountKeywords(kws: seq<string>, t: string) returns (count: nat)
    ensures count == KeywordCount(kws, t)
  {
    count := 0;
    var j := 0;
    while j < |kws|
      invariant j <= |kws|
      invariant count == KeywordCount(kws[..j], t)
    {
      assert kws[..j + 1][..j] == kws[..j];
      if Contains(t, kws[j]) {
        count := count + 1;
      }
      j := j + 1;
    }
    assert kws[..j] == kws;
  }

  /** The position, in registration order, of the category behind entry `i` of `hits`: each
      entry is a category with at least one keyword in `t`, paired with that count. */
  function HitSource(cats: seq<NormType>, table: seq<seq<string>>, k: nat, t: string, i: nat): (m: nat)
    requires k <= |cats| == |table| && i < |HitsOf(cats, table, k, t)|
    ensures m < k && HitsOf(cats, table, k, t)[i] == (cats[m], KeywordCount(table[m], t))
    ensures KeywordCount(table[m], t) > 0
  {
    if i < |HitsOf(cats, table, k - 1, t)| then HitSource(cats, table, k - 1, t, i) else k - 1
  }

  /** Every category with a keyword in `t` has an entry in `hits`. */
  lemma {:induction false} HitPresent(cats: seq<NormType>, table: seq<seq<string>>, k: nat, t: string, m: nat)
    returns (i: nat)
    requires m < k <= |cats| == |table| && KeywordCount(table[m], t) > 0
    ensures i < |HitsOf(cats, table, k, t)| && HitSource(cats, table, k, t, i) == m
  {
    var before := HitsOf(cats, table, k - 1, t);
    if m < k - 1 {
      i := HitPresent(cats, table, k - 1, t, m);
      assert |before| <= |HitsOf(cats, table, k, t)|;
      assert HitSource(cats, table, k, t, i) == HitSource(cats, table, k - 1, t, i);
    } else {
      i := |before|;
      assert |HitsOf(cats, table, k, t)| == |before| + 1;
      assert HitSource(cats, table, k, t, i) == k - 1;
    }
  }

  /** Entries of `hits` follow the registration order of their categories. */
  lemma {:induction false} HitsOrdered(cats: seq<NormType>, table: seq<seq<string>>, k: nat, t: string, i: nat, j: nat)
    requires k <= |cats| == |table| && i < j < |HitsOf(cats, table, k, t)|
    ensures HitSource(cats, table, k, t, i) < HitSource(cats, table, k, t, j)
  {
    if j < |HitsOf(cats, table, k - 1, t)| {
      HitsOrdered(cats, table, k - 1, t, i, j);
    }
  }

  /** `max(hits, key=hits.get)` picks the first category, in registration order, whose count
      is the largest: no category has more hits, and every earlier category has fewer. */
  lemma {:induction false} WinnerIsFirstMaximal(cats: seq<NormType>, table: seq<seq<string>>, t: string, m: nat)
    requires m < |cats| == |table| && HitsOf(cats, table, |cats|, t) != []
    ensures var hits := HitsOf(cats, table, |cats|, t);
      var w := HitSource(cats, table, |cats|, t, FirstMaxIndex(hits));
      && KeywordCount(table[m], t) <= MaxCount(hits)
      && (m < w ==> KeywordCount(table[m], t) < MaxCount(hits))
  {
    var k := |cats|;
    var hits := HitsOf(cats, table, k, t);
    var w := FirstMaxIndex(hits);
    var count := KeywordCount(table[m], t);
    if count > 0 {
      var i := HitPresent(cats, table, k, t, m);
      assert hits[i].1 == count;
      if i > w {
        HitsOrdered(cats, table, k, t, w, i);
      } else if i < w {
        assert hits[i].1 < MaxCount(hits);
      }
    }
  }

  /** There are no hits exactly when no keyword of any category occurs in `t`. */
  lemma {:induction false} NoHitsIffNoKeyword(cats: seq<NormType>, table: seq<seq<string>>, k: nat, t: string)
    requires k <= |cats| == |table|
    ensures HitsOf(cats, table, k, t) == [] <==>
      forall m, j :: 0 <= m < k && 0 <= j < |table[m]| ==> !Contains(t, table[m][j])
  {
    if k > 0 {
      NoHitsIffNoKeyword(cats, table, k - 1, t);
    }
  }

  /** With some hit the detected type is a real category, never `unrelated`, and its
      confidence lies between 0.65 and 0.95. */
  lemma {:induction false} DetectionBounds(text: string)
    ensures Hits(|Categories|, Lower(text)) != [] ==>
      var hits := Hits(|Categories|, Lower(text));
      && hits[FirstMaxIndex(hits)].0 != Unrelated
      && 0.65 <= Confidence(MaxCount(hits), SecondBest(hits)) <= 0.95
  {
    var hits := Hits(|Categories|, Lower(text));
    if hits != [] {
      CategoryIsNotUnrelated(HitSource(Categories, KeywordTable, |Categories|, Lower(text), FirstMaxIndex(hits)));
      SecondBestAtMostBest(hits);
      ConfidenceRange(MaxCount(hits), SecondBest(hits));
    }
  }

  lemma {:induction false} CategoryIsNotUnrelated(m: nat)
    requires m < |Categories|
    ensures Categories[m] != Unrelated
  {
  }

  lemma {:induction false} SecondBestAtMostBest(hits: seq<(NormType, nat)>)
    requires hits != []
    ensures SecondBest(hits) <= MaxCount(hits)
  {
    var w := FirstMaxIndex(hits);
    var rest := hits[..w] + hits[w + 1..];
    forall j | 0 <= j < |rest|
      ensures rest[j].1 <= MaxCount(hits)
    {
      if j < w {
        assert rest[j] == hits[j];
      } else {
        assert rest[j] == hits[j + 1];
      }
    }
    MaxCountAtMost(rest, MaxCount(hits));
  }

  /** A bound on every count bounds the largest. */
  lemma {:induction false} MaxCountAtMost(hits: seq<(NormType, nat)>, b: nat)
    requires forall j :: 0 <= j < |hits| ==> hits[j].1 <= b
    ensures MaxCount(hits) <= b
  {
    if hits != [] {
      var i :| 0 <= i < |hits| && hits[i].1 == MaxCount(hits);
    }
  }

  /** The confidence formula stays within [0.65, 0.95] for any positive best count. */
  lemma {:induction false} ConfidenceRange(best: nat, second: nat)
    requires 1 <= best && second <= best
    ensures 0.65 <= Confidence(best, second) <= 0.95
  {
  }
}
