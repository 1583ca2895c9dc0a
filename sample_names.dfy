/** Facts about the sample transaction names of the worked classifier
    examples: the markers their lower-cased forms hold or lack. */
module SampleNames {
  import opened Strings

  lemma LowerZelle()
    ensures Lower("ZELLE TRANSFER TO J SMITH") == "zelle transfer to j smith"
  {
  }

  /** The characters `zelle transfer to j smith` lacks. */
  lemma ZelleLacks(key: string)
    requires key == "zelle transfer to j smith"
    ensures 'q' !in key && 'u' !in key
  {
  }

  /** `zelle transfer to j smith` names a Zelle payment and no QuickBooks one. */
  lemma ZelleSample(key: string)
    requires key == "zelle transfer to j smith"
    ensures Contains(key, "zelle") && !Contains(key, "quickbooks") && !Contains(key, "intuit")
  {
    assert StartsWith(key, "zelle");
    ZelleLacks(key);
    MissingCharExcludes(key, "quickbooks", 'q');
    MissingCharExcludes(key, "intuit", 'u');
  }

  lemma LowerCheck()
    ensures Lower("CHECK # 1042") == "check # 1042"
  {
  }

  /** `check # 1042` is a check and no earlier kind of payment. */
  lemma CheckSample(key: string)
    requires key == "check # 1042"
    ensures Contains(key, "check #")
    ensures !Contains(key, "quickbooks") && !Contains(key, "intuit") && !Contains(key, "zelle")
  {
    assert StartsWith(key, "check #");
    assert 'q' !in key && 'u' !in key && 'z' !in key;
    MissingCharExcludes(key, "quickbooks", 'q');
    MissingCharExcludes(key, "intuit", 'u');
    MissingCharExcludes(key, "zelle", 'z');
  }

  lemma LowerPlumbing()
    ensures Lower("ALL-PRO PLUMBING INV 99") == "all-pro plumbing inv 99"
  {
  }

  /** The characters `all-pro plumbing inv 99` lacks. */
  lemma PlumbingLacks(key: string)
    requires key == "all-pro plumbing inv 99"
    ensures 'q' !in key && 't' !in key && 'z' !in key && '#' !in key
  {
  }

  /** `all-pro plumbing inv 99` holds the first subcontractor keyword and
      none of the payment markers. */
  lemma PlumbingSample(key: string)
    requires key == "all-pro plumbing inv 99"
    ensures Contains(key, "all-pro plumbing")
    ensures !Contains(key, "quickbooks") && !Contains(key, "intuit")
    ensures !Contains(key, "zelle") && !Contains(key, "check #")
  {
    assert StartsWith(key, "all-pro plumbing");
    PlumbingLacks(key);
    MissingCharExcludes(key, "quickbooks", 'q');
    MissingCharExcludes(key, "intuit", 't');
    MissingCharExcludes(key, "zelle", 'z');
    MissingCharExcludes(key, "check #", '#');
  }
}
