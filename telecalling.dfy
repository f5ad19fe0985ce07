/** `prepare_telecalling_data` of `export_utils.py`: every lead becomes a row
    of the five columns the calling team works from, with the scrapers'
    placeholders blanked out. */
module Telecalling {
  import opened ExportUtils

  /** The five column names of a row. */
  const Columns: set<string> := {"Business Name", "Contact Number", "Location", "Website", "Rating"}

  /** The placeholders the scrapers write for a field they could not read. */
  predicate IsPlaceholder(v: string) { v == "Not found" || v == "N/A" }

  /** A text field with its placeholder replaced by the empty string. */
  function Clean(v: string): (r: string)
    ensures !IsPlaceholder(r)
    ensures r == v || r == ""
    ensures !IsPlaceholder(v) <==> r == v
  {
    if IsPlaceholder(v) then "" else v
  }

  /** The rating column: only 'N/A' is blanked. */
  function CleanRating(v: string): (r: string)
    ensures r != "N/A"
    ensures v != "N/A" <==> r == v
    ensures v == "N/A" ==> r == ""
  {
    if v == "N/A" then "" else v
  }

  /** The row built for one lead. */
  function Row(rec: Dict): (r: Dict)
    ensures r.Keys == Columns
    ensures r["Business Name"] == Get(rec, "store_name", "Unknown Store")
    ensures r["Contact Number"] == Clean(Get(rec, "phone_number", ""))
    ensures r["Location"] == Clean(Get(rec, "address", ""))
    ensures r["Website"] == Clean(Get(rec, "website", ""))
    ensures r["Rating"] == CleanRating(Get(rec, "rating", "N/A"))
  {
    map["Business Name" := Get(rec, "store_name", "Unknown Store"),
        "Contact Number" := Clean(Get(rec, "phone_number", "")),
        "Location" := Clean(Get(rec, "address", "")),
        "Website" := Clean(Get(rec, "website", "")),
        "Rating" := CleanRating(Get(rec, "rating", "N/A"))]
  }

  /** No row carries a placeholder in a contact column, and a field that held a
      real value reaches its column unchanged. */
  lemma RowHasNoPlaceholders(rec: Dict)
    ensures var r := Row(rec);
      !IsPlaceholder(r["Contact Number"]) && !IsPlaceholder(r["Location"])
      && !IsPlaceholder(r["Website"]) && r["Rating"] != "N/A"
    ensures "phone_number" in rec && !IsPlaceholder(rec["phone_number"]) ==> Row(rec)["Contact Number"] == rec["phone_number"]
    ensures "address" in rec && !IsPlaceholder(rec["address"]) ==> Row(rec)["Location"] == rec["address"]
    ensures "website" in rec && !IsPlaceholder(rec["website"]) ==> Row(rec)["Website"] == rec["website"]
  {
  }

  /** `prepare_telecalling_data`: one row per lead, in order. */
  method PrepareTelecallingData(records: seq<Dict>) returns (rows: seq<Dict>)
    ensures |rows| == |records|
    ensures forall i :: 0 <= i < |records| ==> rows[i] == Row(records[i])
  {
    rows := [];
    var i := 0;
    while i < |records|
      invariant 0 <= i <= |records|
      invariant |rows| == i
      invariant forall j :: 0 <= j < i ==> rows[j] == Row(records[j])
    {
      var record := records[i];
      var name := Get(record, "store_name", "Unknown Store");
      var phone := Get(record, "phone_number", "");
      var address := Get(record, "address", "");
      var website := Get(record, "website", "");
      var rating := Get(record, "rating", "N/A");
      if phone == "Not found" || phone == "N/A" {
        phone := "";
      }
      if address == "Not found" || address == "N/A" {
        address := "";
      }
      if website == "Not found" || website == "N/A" {
        website := "";
      }
      if rating == "N/A" {
        rating := "";
      }
      rows := rows + [map["Business Name" := name, "Contact Number" := phone, "Location" := address,
                          "Website" := website, "Rating" := rating]];
      i := i + 1;
    }
  }
}
