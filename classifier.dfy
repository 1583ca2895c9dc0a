/** The transaction classifier shared, as two identical copies, by
    `categorize_transaction` (sync.py) and `categorize`
    (finance_tracker_sheets.py): a first-match-wins chain of case-insensitive
    substring tests on the transaction's name. Each copy declares its own
    tables; `Config` holds one copy's tables. */
module Classifier {
  import opened Wrappers
  import opened Strings

  /** The `{"category": ..., "project": ...}` dictionary returned. */
  datatype Tags = Tags(category: string, project: string)

  /** One entry of SUBCONTRACTOR_DATABASE: a keyword and its service. */
  datatype Subcontractor = Subcontractor(keyword: string, service: string)

  /** The constant tables of one copy: the subcontractor database in insertion
      order and the three vendor lists. */
  datatype Config = Config(
    subcontractors: seq<Subcontractor>,
    materials: seq<string>,
    rentals: seq<string>,
    fuel: seq<string>)

  const QuickBooksBillPay := Tags("QuickBooks Bill Pay", "NEEDS REVIEW")
  const ZellePayment := Tags("Zelle Payment", "Bellevue")
  const SubcontractorPayout := Tags("Subcontractor Payout", "Bellevue")
  const Materials := Tags("Materials", "Bellevue")
  const EquipmentRental := Tags("Equipment Rental", "Bellevue")
  const Fuel := Tags("Fuel", "Admin")
  const Uncategorized := Tags("Uncategorized", "Unknown")

  /** The categories the rules other than the table assign. */
  const FixedCategories: set<string> := {
    "QuickBooks Bill Pay", "Zelle Payment", "Subcontractor Payout",
    "Materials", "Equipment Rental", "Fuel", "Uncategorized"}

  /** The projects the classifier can assign. */
  const Projects: set<string> := {"NEEDS REVIEW", "Bellevue", "Admin", "Unknown"}

  /** `txn.name.lower() if txn.name else ""`. */
  function MatchKey(name: Option<string>): string {
    if name.Some? && name.value != "" then Lower(name.value) else ""
  }

  /** `any(vendor in name for vendor in vendors)`. */
  predicate AnyIn(vendors: seq<string>, name: string) {
    |vendors| > 0 && (Contains(name, vendors[0]) || AnyIn(vendors[1..], name))
  }

  lemma {:induction false} AnyInIff(vendors: seq<string>, name: string)
    ensures AnyIn(vendors, name) <==> exists i :: 0 <= i < |vendors| && Contains(name, vendors[i])
  {
    if |vendors| > 0 {
      AnyInIff(vendors[1..], name);
      if i :| 0 <= i < |vendors| && Contains(name, vendors[i]) {
        if i > 0 {
          assert Contains(name, vendors[1..][i - 1]);
        }
      }
    }
  }

  lemma AnyInOne(vendor: string, name: string)
    ensures AnyIn([vendor], name) == Contains(name, vendor)
  {
    assert [vendor][1..] == [];
  }

  /** The `for` loop over the subcontractor database: the index of the first
      entry, in insertion order, whose keyword occurs in `name`. */
  function FirstSubcontractor(table: seq<Subcontractor>, name: string): (r: Option<nat>)
    ensures r.Some? ==> r.value < |table| && Contains(name, table[r.value].keyword)
    ensures forall j :: 0 <= j < |table| && (r.None? || j < r.value) ==> !Contains(name, table[j].keyword)
  {
    if table == [] then None
    else if Contains(name, table[0].keyword) then Some(0)
    else match FirstSubcontractor(table[1..], name)
      case None => None
      case Some(i) => Some(i + 1)
  }

  /** The if-chain of the source, applied to the lower-cased name. */
  function Classify(c: Config, key: string): Tags {
    if Contains(key, "quickbooks") || Contains(key, "intuit") then QuickBooksBillPay
    else if Contains(key, "zelle") then ZellePayment
    else if Contains(key, "check #") then SubcontractorPayout
    else match FirstSubcontractor(c.subcontractors, key)
      case Some(i) => Tags(c.subcontractors[i].service, "Bellevue")
      case None =>
        if AnyIn(c.materials, key) then Materials
        else if AnyIn(c.rentals, key) then EquipmentRental
        else if AnyIn(c.fuel, key) then Fuel
        else Uncategorized
  }

  // ---- the same rules as data ---------------------------------------------

  /** One rule: if any keyword occurs in the name, the rule's tags apply. */
  datatype Rule = Rule(keywords: seq<string>, tags: Tags)

  /** One rule per subcontractor entry, in table order. */
  function SubcontractorRules(table: seq<Subcontractor>): (rules: seq<Rule>)
    ensures |rules| == |table|
    ensures forall i :: 0 <= i < |table| ==>
      rules[i] == Rule([table[i].keyword], Tags(table[i].service, "Bellevue"))
  {
    if table == [] then []
    else [Rule([table[0].keyword], Tags(table[0].service, "Bellevue"))] + SubcontractorRules(table[1..])
  }

  /** The ordered rule table: payment markers, the subcontractor table, then
      the vendor lists. */
  function Rules(c: Config): seq<Rule> {
    [Rule(["quickbooks", "intuit"], QuickBooksBillPay),
     Rule(["zelle"], ZellePayment),
     Rule(["check #"], SubcontractorPayout)]
    + SubcontractorRules(c.subcontractors)
    + [Rule(c.materials, Materials), Rule(c.rentals, EquipmentRental), Rule(c.fuel, Fuel)]
  }

  /** First-match-wins evaluation of an ordered rule table. */
  function FirstMatch(rules: seq<Rule>, key: string): Tags {
    if rules == [] then Uncategorized
    else if AnyIn(rules[0].keywords, key) then rules[0].tags
    else FirstMatch(rules[1..], key)
  }

  lemma FirstMatchCons(r: Rule, rest: seq<Rule>, key: string)
    ensures FirstMatch([r] + rest, key) == if AnyIn(r.keywords, key) then r.tags else FirstMatch(rest, key)
  {
    assert ([r] + rest)[1..] == rest;
  }

  /** Evaluating the subcontractor rules followed by others is the table
      scan, falling through to the others on no hit. */
  lemma {:induction false} FirstMatchSubcontractors(table: seq<Subcontractor>, rest: seq<Rule>, key: string)
    ensures FirstMatch(SubcontractorRules(table) + rest, key) ==
      match FirstSubcontractor(table, key)
      case Some(i) => Tags(table[i].service, "Bellevue")
      case None => FirstMatch(rest, key)
  {
    if table == [] {
      assert SubcontractorRules(table) + rest == rest;
    } else {
      var head := Rule([table[0].keyword], Tags(table[0].service, "Bellevue"));
      assert SubcontractorRules(table) + rest == [head] + (SubcontractorRules(table[1..]) + rest);
      assert AnyIn(head.keywords, key) == Contains(key, table[0].keyword);
      FirstMatchSubcontractors(table[1..], rest, key);
    }
  }

  /** The if-chain and the ordered rule table classify every name alike. */
  lemma ClassifyIsFirstMatch(c: Config, key: string)
    ensures Classify(c, key) == FirstMatch(Rules(c), key)
  {
    var payments := [Rule(["quickbooks", "intuit"], QuickBooksBillPay),
                     Rule(["zelle"], ZellePayment),
                     Rule(["check #"], SubcontractorPayout)];
    var vendors := [Rule(c.materials, Materials), Rule(c.rentals, EquipmentRental), Rule(c.fuel, Fuel)];
    var subs := SubcontractorRules(c.subcontractors);
    assert Rules(c) == payments + (subs + vendors);
    AnyInOne("intuit", key);
    AnyInOne("zelle", key);
    AnyInOne("check #", key);
    assert ["quickbooks", "intuit"][1..] == ["intuit"];
    assert AnyIn(payments[0].keywords, key) == (Contains(key, "quickbooks") || Contains(key, "intuit"));
    assert AnyIn(payments[1].keywords, key) == Contains(key, "zelle");
    assert AnyIn(payments[2].keywords, key) == Contains(key, "check #");
    var p0, p1, p2 := payments[0], payments[1], payments[2];
    assert payments + (subs + vendors) == [p0] + ([p1] + ([p2] + (subs + vendors)));
    FirstMatchCons(p0, [p1] + ([p2] + (subs + vendors)), key);
    FirstMatchCons(p1, [p2] + (subs + vendors), key);
    FirstMatchCons(p2, subs + vendors, key);
    FirstMatchSubcontractors(c.subcontractors, vendors, key);
    var v0, v1, v2 := vendors[0], vendors[1], vendors[2];
    assert vendors == [v0] + ([v1] + ([v2] + []));
    FirstMatchCons(v0, [v1] + ([v2] + []), key);
    FirstMatchCons(v1, [v2] + [], key);
    FirstMatchCons(v2, [], key);
  }

  // ---- properties of the classifier --------------------------------------

  /** The project is always one of four labels, whatever the tables say. */
  lemma ProjectIsClosed(c: Config, key: string)
    ensures Classify(c, key).project in Projects
  {
  }

  /** The category is a rule's own label or the service of a table entry. */
  lemma CategoryIsClosed(c: Config, key: string)
    ensures Classify(c, key).category in FixedCategories ||
      exists e :: e in c.subcontractors && Classify(c, key).category == e.service
  {
    var i := FirstSubcontractor(c.subcontractors, key);
    if i.Some? {
      assert c.subcontractors[i.value] in c.subcontractors;
    }
  }

  /** Rule order decides overlaps: a name carrying the peer-to-peer marker and
      no bill-pay marker is a Zelle payment, whatever vendor it also names. */
  lemma ZelleBeforeVendors(c: Config, key: string)
    requires Contains(key, "zelle")
    requires !Contains(key, "quickbooks") && !Contains(key, "intuit")
    ensures Classify(c, key) == ZellePayment
  {
  }

  /** The paper-check marker wins over the subcontractor table and the
      vendor lists. */
  lemma CheckBeforeTable(c: Config, key: string)
    requires Contains(key, "check #")
    requires !Contains(key, "quickbooks") && !Contains(key, "intuit") && !Contains(key, "zelle")
    ensures Classify(c, key) == SubcontractorPayout
  {
  }

  /** With no payment marker, the category of a name naming a subcontractor
      keyword is the service of the first such keyword in table order. */
  lemma SubcontractorServiceWins(c: Config, key: string, i: nat)
    requires !Contains(key, "quickbooks") && !Contains(key, "intuit")
    requires !Contains(key, "zelle") && !Contains(key, "check #")
    requires i < |c.subcontractors| && Contains(key, c.subcontractors[i].keyword)
    requires forall j :: 0 <= j < i ==> !Contains(key, c.subcontractors[j].keyword)
    ensures Classify(c, key) == Tags(c.subcontractors[i].service, "Bellevue")
  {
    var r := FirstSubcontractor(c.subcontractors, key);
    assert r.Some? && r.value == i;
  }

  /** Every keyword of the tables is non-empty. */
  predicate NonEmptyKeywords(c: Config) {
    (forall e :: e in c.subcontractors ==> e.keyword != "") &&
    (forall v :: v in c.materials ==> v != "") &&
    (forall v :: v in c.rentals ==> v != "") &&
    (forall v :: v in c.fuel ==> v != "")
  }

  lemma {:induction false} NoneInEmpty(vendors: seq<string>)
    requires forall v :: v in vendors ==> v != ""
    ensures !AnyIn(vendors, "")
  {
    if |vendors| > 0 {
      assert vendors[0] in vendors;
      assert forall v :: v in vendors[1..] ==> v in vendors;
      NoneInEmpty(vendors[1..]);
    }
  }

  /** A missing or empty name falls through to the default. */
  lemma EmptyNameIsUncategorized(c: Config, name: Option<string>)
    requires NonEmptyKeywords(c)
    requires name.None? || name.value == ""
    ensures Classify(c, MatchKey(name)) == Uncategorized
  {
    NoneInEmpty(c.materials);
    NoneInEmpty(c.rentals);
    NoneInEmpty(c.fuel);
  }

  /** Matching ignores case: a name and its lower-cased form classify alike. */
  lemma CaseInsensitive(c: Config, name: string)
    ensures Classify(c, MatchKey(Some(name))) == Classify(c, MatchKey(Some(Lower(name))))
  {
    LowerIdempotent(name);
  }
}
