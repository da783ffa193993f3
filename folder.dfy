/** The folder listing both loaders start from: the entries whose name
    ends in ".csv", in any letter case, in listing order. */
module Folder {
  import opened Text

  /** `f.lower().endswith(".csv")`. */
  predicate IsCsvName(name: string) {
    EndsWith(Lower(name), ".csv")
  }

  /** The CSV files of a listing, in listing order. */
  function CsvFiles(listing: seq<string>): seq<string> {
    if listing == [] then []
    else CsvFiles(listing[..|listing| - 1])
         + (if IsCsvName(listing[|listing| - 1]) then [listing[|listing| - 1]] else [])
  }

  lemma {:induction false} CsvFilesMembers(listing: seq<string>)
    ensures forall f :: f in CsvFiles(listing) <==> f in listing && IsCsvName(f)
  {
    if listing != [] {
      var init := listing[..|listing| - 1];
      CsvFilesMembers(init);
      assert listing == init + [listing[|listing| - 1]];
    }
  }
}
