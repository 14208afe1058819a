/** The institution database card: the institutions matching a search term
    and a country selection, and the list of countries offered. */
module Institutions {
  import opened Text
  import Seqs

  datatype Recognition = High | Medium | Standard

  datatype Institution = Institution(
    id: string,
    name: string,
    country: string,
    rigor: real,
    kind: string,
    gradingSystem: string,
    conversionFactor: real,
    recognitionLevel: Recognition,
    specializations: seq<string>)

  /** The search matches the name or the country (both in any ASCII case),
      and the selection is the country or "all". */
  predicate Matches(searchTerm: string, selectedCountry: string, inst: Institution) {
    && (Contains(ToLower(inst.name), ToLower(searchTerm)) || Contains(ToLower(inst.country), ToLower(searchTerm)))
    && (selectedCountry == "all" || inst.country == selectedCountry)
  }

  /** `filteredInstitutions`: the matching institutions, in database order. */
  function FilterInstitutions(db: seq<Institution>, searchTerm: string, selectedCountry: string): (r: seq<Institution>)
    ensures Seqs.IsSubsequence(r, db)
    ensures forall i :: 0 <= i < |r| ==> Matches(searchTerm, selectedCountry, r[i])
    ensures forall x :: x in r <==> x in db && Matches(searchTerm, selectedCountry, x)
    ensures forall x :: multiset(r)[x] == if Matches(searchTerm, selectedCountry, x) then multiset(db)[x] else 0
  {
    Seqs.FilterIsSubsequence(db, x => Matches(searchTerm, selectedCountry, x));
    Seqs.FilterMultiset(db, x => Matches(searchTerm, selectedCountry, x));
    Seqs.Filter(db, x => Matches(searchTerm, selectedCountry, x))
  }

  /** An empty search with "all" shows the whole database. */
  lemma ShowAllKeepsEverything(db: seq<Institution>)
    ensures FilterInstitutions(db, "", "all") == db
  {
    forall i | 0 <= i < |db| ensures Matches("", "all", db[i]) {
      assert StartsWith(ToLower(db[i].name), "");
    }
    Seqs.FilterKeepsAll(db, x => Matches("", "all", x));
  }

  /** Selecting a country shows only institutions of that country. */
  lemma SelectedCountryOnly(db: seq<Institution>, searchTerm: string, country: string)
    requires country != "all"
    ensures forall x :: x in FilterInstitutions(db, searchTerm, country) ==> x.country == country
  {
  }

  function CountryOf(inst: Institution): string { inst.country }

  /** `[...new Set(institutionDatabase.map((inst) => inst.country))]`. */
  function Countries(db: seq<Institution>): (r: seq<string>)
    ensures |r| <= |db|
  {
    var all := seq(|db|, i requires 0 <= i < |db| => db[i].country);
    DedupNoLonger(all);
    Seqs.Dedup(all)
  }

  /** Every database country is listed exactly once, in order of first appearance. */
  lemma CountriesFacts(db: seq<Institution>)
    ensures Seqs.NoDuplicates(Countries(db))
    ensures forall c :: c in Countries(db) <==> exists i :: 0 <= i < |db| && db[i].country == c
    ensures var all := seq(|db|, i requires 0 <= i < |db| => db[i].country);
      forall i, j :: 0 <= i < j < |Countries(db)| ==>
        Seqs.FirstIndex(all, Countries(db)[i]) < Seqs.FirstIndex(all, Countries(db)[j])
  {
    var all := seq(|db|, i requires 0 <= i < |db| => db[i].country);
    Seqs.DedupFirstAppearanceOrder(all);
    forall c ensures c in all <==> exists i :: 0 <= i < |db| && db[i].country == c {
      if c in all {
        var k :| 0 <= k < |all| && all[k] == c;
        assert db[k].country == c;
      }
      if exists i :: 0 <= i < |db| && db[i].country == c {
        var k :| 0 <= k < |db| && db[k].country == c;
        assert all[k] == c;
      }
    }
  }

  /** Removing duplicates never lengthens a list. */
  lemma {:induction false} DedupNoLonger(s: seq<string>)
    ensures |Seqs.Dedup(s)| <= |s|
    decreases |s|
  {
    if s != [] {
      DedupNoLonger(s[..|s| - 1]);
    }
  }
}
