/** `deduplicate_records` of `export_utils.py`: one pass over the leads that
    drops a lead whose phone key or name key was seen before, keeping the
    better rated or the one with a phone. The pass is written for any pair of
    key functions; `SourceKeys` is the pair the source uses. */
module Dedup {
  import opened Wrappers
  import opened ExportUtils

  /** The two keys records are compared by. */
  datatype Keys = Keys(phone: Dict -> string, name: Dict -> string)

  /** `normalize_phone` and `normalize_name` applied to a record's fields. */
  const SourceKeys: Keys := Keys(PhoneKey, NameKey)

  /** Where `x` first occurs in `xs`. */
  function FirstIndex(xs: seq<Dict>, x: Dict): (i: nat)
    requires x in xs
    ensures i < |xs| && xs[i] == x && x !in xs[..i]
  {
    if xs[0] == x then 0 else 1 + FirstIndex(xs[1..], x)
  }

  /** `xs.remove(x)`: the first element equal to `x` taken out; None for the
      `ValueError` raised when there is none. */
  function RemoveFirst(xs: seq<Dict>, x: Dict): (r: Option<seq<Dict>>)
    ensures r.None? <==> x !in xs
    ensures r.Some? ==> multiset(r.value) == multiset(xs) - multiset{x}
    ensures r.Some? ==> var i := FirstIndex(xs, x); r.value == xs[..i] + xs[i + 1..]
  {
    if x !in xs then None
    else
      var i := FirstIndex(xs, x);
      assert xs == xs[..i] + [x] + xs[i + 1..];
      Some(xs[..i] + xs[i + 1..])
  }

  /** Removing `x` keeps every other value, adds none, and shortens by one. */
  lemma RemovedMembers(xs: seq<Dict>, x: Dict, u: seq<Dict>)
    requires RemoveFirst(xs, x) == Some(u)
    ensures forall y :: y in u ==> y in xs
    ensures forall y :: y != x ==> (y in u <==> y in xs)
    ensures |u| == |xs| - 1
  {
    forall y ensures (y in u ==> y in xs) && (y != x ==> (y in u <==> y in xs)) {
      assert multiset(u)[y] == multiset(xs)[y] - (if y == x then 1 else 0);
    }
    assert |multiset(u)| == |multiset(xs)| - 1;
  }

  /** The loop state: `seen_phones`, `seen_names` and `unique_records`. */
  datatype DedupState = DedupState(seenPhones: map<string, Dict>, seenNames: map<string, Dict>, unique: seq<Dict>)

  /** A state part-way through one record, with its `is_duplicate` flag. */
  datatype Stage = Stage(state: DedupState, duplicate: bool)

  /** The phone check: a key of ten or more characters seen before marks the
      record a duplicate, and a strictly better rating replaces the kept record. */
  function PhoneStage(k: Keys, st: DedupState, rec: Dict): Stage {
    var np := k.phone(rec);
    if |np| < 10 then Stage(st, false)
    else if np !in st.seenPhones then Stage(st.(seenPhones := st.seenPhones[np := rec]), false)
    else
      var existing := st.seenPhones[np];
      if RatesHigher(rec, existing) != Some(true) then Stage(st, true)
      else match RemoveFirst(st.unique, existing)
        case None => Stage(st, true)
        case Some(u) => Stage(DedupState(st.seenPhones[np := rec], st.seenNames, u + [rec]), true)
  }

  /** The name check, reached when the phone check did not mark a duplicate and
      the name key is not empty. None is the `ValueError` of the `remove` that
      sits outside the `try`. */
  function NameStage(k: Keys, st: DedupState, rec: Dict): Option<Stage> {
    var np, nn := k.phone(rec), k.name(rec);
    if nn !in st.seenNames then Some(Stage(st.(seenNames := st.seenNames[nn := rec]), false))
    else
      var existing := st.seenNames[nn];
      var ep := k.phone(existing);
      if np != "" && ep != "" && np != ep then Some(Stage(st.(unique := st.unique + [rec]), false))
      else if np != "" && ep == "" then
        match RemoveFirst(st.unique, existing)
        case None => None
        case Some(u) => Some(Stage(DedupState(st.seenPhones, st.seenNames[nn := rec], u + [rec]), false))
      else if np == "" && ep != "" then Some(Stage(st, true))
      else if RatesHigher(rec, existing) != Some(true) then Some(Stage(st, true))
      else match RemoveFirst(st.unique, existing)
        case None => Some(Stage(st, true))
        case Some(u) => Some(Stage(DedupState(st.seenPhones, st.seenNames[nn := rec], u + [rec]), false))
  }

  /** One iteration of the loop; None if it raises. */
  function Step(k: Keys, st: DedupState, rec: Dict): Option<DedupState> {
    var p := PhoneStage(k, st, rec);
    var n := if !p.duplicate && k.name(rec) != "" then NameStage(k, p.state, rec) else Some(p);
    match n
    case None => None
    case Some(x) => Some(if x.duplicate then x.state else x.state.(unique := x.state.unique + [rec]))
  }

  const Start := DedupState(map[], map[], [])

  /** The loop run over `rs`. */
  function Fold(k: Keys, rs: seq<Dict>): Option<DedupState> {
    if rs == [] then Some(Start)
    else match Fold(k, rs[..|rs| - 1])
      case None => None
      case Some(st) => Step(k, st, rs[|rs| - 1])
  }

  /** The list the loop returns; None if it raises. */
  function Output(k: Keys, rs: seq<Dict>): Option<seq<Dict>> {
    match Fold(k, rs)
    case None => None
    case Some(st) => Some(st.unique)
  }

  /** What `deduplicate_records(rs)` returns; None if it raises. */
  function Deduplicated(rs: seq<Dict>): Option<seq<Dict>> {
    Output(SourceKeys, rs)
  }

  /** What holds of the loop state after every record: phone keys are long and
      belong to their records, name keys belong to their records, a phoneless
      record kept under a name key is still in the output, and the output holds
      only records already read. */
  ghost predicate Inv(k: Keys, st: DedupState, processed: seq<Dict>) {
    (forall key :: key in st.seenPhones ==> |key| >= 10 && k.phone(st.seenPhones[key]) == key)
    && (forall key :: key in st.seenNames ==> k.name(st.seenNames[key]) == key)
    && (forall key :: key in st.seenNames && k.phone(st.seenNames[key]) == "" ==> st.seenNames[key] in st.unique)
    && (forall x :: x in st.unique ==> x in processed)
  }

  lemma PhoneStageKeepsInv(k: Keys, st: DedupState, processed: seq<Dict>, rec: Dict)
    requires Inv(k, st, processed)
    ensures var p := PhoneStage(k, st, rec);
      p.state.seenNames == st.seenNames && |p.state.unique| <= |st.unique| + 1
      && (p.duplicate ==> Inv(k, p.state, processed + [rec]))
      && (!p.duplicate ==> p.state.unique == st.unique && Inv(k, p.state.(unique := p.state.unique + [rec]), processed + [rec]))
  {
    var np := k.phone(rec);
    if |np| >= 10 && np in st.seenPhones && RatesHigher(rec, st.seenPhones[np]) == Some(true) {
      var existing := st.seenPhones[np];
      if RemoveFirst(st.unique, existing).Some? {
        PhoneReplaceKeepsInv(k, st, processed, rec, RemoveFirst(st.unique, existing).value);
      }
    }
  }

  /** The replacing branch of the phone check keeps the invariant: the earlier
      record (whose phone is non-empty) leaves the list and the new one joins it. */
  lemma PhoneReplaceKeepsInv(k: Keys, st: DedupState, processed: seq<Dict>, rec: Dict, u: seq<Dict>)
    requires Inv(k, st, processed)
    requires |k.phone(rec)| >= 10 && k.phone(rec) in st.seenPhones
    requires RemoveFirst(st.unique, st.seenPhones[k.phone(rec)]) == Some(u)
    ensures |u + [rec]| <= |st.unique| + 1
    ensures Inv(k, DedupState(st.seenPhones[k.phone(rec) := rec], st.seenNames, u + [rec]), processed + [rec])
  {
    var np, existing := k.phone(rec), st.seenPhones[k.phone(rec)];
    var phones := st.seenPhones[np := rec];
    forall key | key in phones ensures |key| >= 10 && k.phone(phones[key]) == key {
      if key != np { assert phones[key] == st.seenPhones[key]; }
    }
    RemovedMembers(st.unique, existing, u);
  }

  lemma NameStageKeepsInv(k: Keys, st: DedupState, processed: seq<Dict>, rec: Dict)
    requires Inv(k, st, processed)
    requires !PhoneStage(k, st, rec).duplicate && k.name(rec) != ""
    ensures Step(k, st, rec).Some?
    ensures Inv(k, Step(k, st, rec).value, processed + [rec])
    ensures |Step(k, st, rec).value.unique| <= |st.unique| + 2
  {
    PhoneStageKeepsInv(k, st, processed, rec);
    var q := PhoneStage(k, st, rec).state;
    var np, nn := k.phone(rec), k.name(rec);
    assert Inv(k, q.(unique := q.unique + [rec]), processed + [rec]);
    if nn in q.seenNames {
      var existing := q.seenNames[nn];
      var ep := k.phone(existing);
      if (np != "" && ep == "") || (!(np != "" && ep != "" && np != ep) && !(np == "" && ep != "") && RatesHigher(rec, existing) == Some(true)) {
        if ep == "" {
          assert existing in q.unique;
        }
        if RemoveFirst(q.unique, existing).Some? {
          var u := RemoveFirst(q.unique, existing).value;
          var r := DedupState(q.seenPhones, q.seenNames[nn := rec], u + [rec] + [rec]);
          ReplaceByNameKeepsInv(k, q, processed, rec, existing, u);
          RemovedMembers(q.unique, existing, u);
          assert Step(k, st, rec) == Some(r);
        }
      }
    }
  }

  /** Replacing the record kept under the new record's name key keeps `Inv`. */
  lemma ReplaceByNameKeepsInv(k: Keys, q: DedupState, processed: seq<Dict>, rec: Dict, existing: Dict, u: seq<Dict>)
    requires Inv(k, q.(unique := q.unique + [rec]), processed + [rec])
    requires k.name(rec) in q.seenNames && existing == q.seenNames[k.name(rec)]
    requires RemoveFirst(q.unique, existing) == Some(u)
    ensures Inv(k, DedupState(q.seenPhones, q.seenNames[k.name(rec) := rec], u + [rec] + [rec]), processed + [rec])
  {
    var nn := k.name(rec);
    RemovedMembers(q.unique, existing, u);
  }

  /** One record never raises from a state satisfying `Inv`, and keeps `Inv`;
      the output grows by at most two. */
  lemma StepKeepsInv(k: Keys, st: DedupState, processed: seq<Dict>, rec: Dict)
    requires Inv(k, st, processed)
    ensures Step(k, st, rec).Some?
    ensures Inv(k, Step(k, st, rec).value, processed + [rec])
    ensures |Step(k, st, rec).value.unique| <= |st.unique| + 2
  {
    if !PhoneStage(k, st, rec).duplicate && k.name(rec) != "" {
      NameStageKeepsInv(k, st, processed, rec);
    } else {
      PhoneStageKeepsInv(k, st, processed, rec);
    }
  }

  /** After any records, the loop state satisfies `Inv` and the output is at
      most twice as long as the input. */
  lemma {:induction false} FoldKeepsInv(k: Keys, rs: seq<Dict>)
    ensures Fold(k, rs).Some? && Inv(k, Fold(k, rs).value, rs)
    ensures |Fold(k, rs).value.unique| <= 2 * |rs|
  {
    if rs != [] {
      var init, last := rs[..|rs| - 1], rs[|rs| - 1];
      FoldKeepsInv(k, init);
      var st := Fold(k, init).value;
      StepKeepsInv(k, st, init, last);
      assert Fold(k, rs) == Step(k, st, last);
      assert init + [last] == rs;
    }
  }

  /** The loop never raises: the `remove` outside the `try` always finds its
      record. The result holds only input records, at most two entries per
      input record. */
  lemma OutputFromInput(k: Keys, rs: seq<Dict>)
    ensures Output(k, rs).Some?
    ensures forall x :: x in Output(k, rs).value ==> x in rs
    ensures |Output(k, rs).value| <= 2 * |rs|
  {
    FoldKeepsInv(k, rs);
  }

  /** The first record is always kept, under its phone key when that is long
      enough and under its name key when that is not empty. */
  lemma FirstRecordKept(k: Keys, rec: Dict)
    ensures Step(k, Start, rec) == Some(DedupState(
      if |k.phone(rec)| >= 10 then map[k.phone(rec) := rec] else map[],
      if k.name(rec) != "" then map[k.name(rec) := rec] else map[],
      [rec]))
  {
    var np, nn := k.phone(rec), k.name(rec);
    var phones: map<string, Dict> := if |np| >= 10 then map[np := rec] else map[];
    var names: map<string, Dict> := if nn != "" then map[nn := rec] else map[];
    var p := PhoneStage(k, Start, rec);
    assert p == Stage(DedupState(phones, map[], []), false) by {
      if |np| >= 10 {
        assert Start.seenPhones[np := rec] == map[np := rec];
      }
    }
    var n := if nn != "" then NameStage(k, p.state, rec) else Some(p);
    assert n == Some(Stage(DedupState(phones, names, []), false)) by {
      if nn != "" {
        assert nn !in p.state.seenNames;
        assert p.state.seenNames[nn := rec] == map[nn := rec];
      }
    }
    assert Step(k, Start, rec) == Some(DedupState(phones, names, [] + [rec]));
    assert [] + [rec] == [rec];
  }

  /** A record with no usable phone key and no name key is always appended. */
  lemma UnkeyedRecordAppended(k: Keys, st: DedupState, rec: Dict)
    requires |k.phone(rec)| < 10 && k.name(rec) == ""
    ensures Step(k, st, rec) == Some(st.(unique := st.unique + [rec]))
  {
  }

  lemma FoldPair(k: Keys, r1: Dict, r2: Dict)
    ensures Fold(k, [r1, r2]) == Step(k, Step(k, Start, r1).value, r2)
  {
    assert Fold(k, [r1]) == Step(k, Start, r1) by {
      assert [r1][..0] == [];
    }
    FirstRecordKept(k, r1);
    assert [r1, r2][..1] == [r1];
  }

  /** Two records with the same phone key: only the better rated survives, the
      earlier one on a tie or when a rating does not parse. */
  lemma SamePhoneKeepsBetterRated(k: Keys, r1: Dict, r2: Dict)
    requires |k.phone(r1)| >= 10 && k.phone(r2) == k.phone(r1)
    ensures Output(k, [r1, r2]) == Some(if RatesHigher(r2, r1) == Some(true) then [r2] else [r1])
  {
    FoldPair(k, r1, r2);
    FirstRecordKept(k, r1);
    var st := Step(k, Start, r1).value;
    assert st.seenPhones[k.phone(r1)] == r1 && st.unique == [r1];
    var p := PhoneStage(k, st, r2);
    assert p.duplicate;
    if RatesHigher(r2, r1) == Some(true) {
      assert RemoveFirst([r1], r1) == Some([]);
      assert p.state.unique == [r2];
    } else {
      assert p.state == st;
    }
  }

  /** A phoneless record after a record of the same name that has a phone is
      dropped. */
  lemma PhonelessAfterPhonedDropped(k: Keys, r1: Dict, r2: Dict)
    requires k.name(r1) != "" && k.name(r2) == k.name(r1)
    requires k.phone(r1) != "" && k.phone(r2) == ""
    ensures Output(k, [r1, r2]) == Some([r1])
  {
    FoldPair(k, r1, r2);
    FirstRecordKept(k, r1);
    var st := Step(k, Start, r1).value;
    assert st.seenNames[k.name(r1)] == r1 && st.unique == [r1];
    var p := PhoneStage(k, st, r2);
    assert p == Stage(st, false);
    assert NameStage(k, st, r2) == Some(Stage(st, true));
  }

  /** Two records with the same name key and different phone keys are both
      kept, and the second is appended twice. */
  lemma SameNameDifferentPhonesAppendsTwice(k: Keys, r1: Dict, r2: Dict)
    requires k.name(r1) != "" && k.name(r2) == k.name(r1)
    requires k.phone(r1) != "" && k.phone(r2) != "" && k.phone(r1) != k.phone(r2)
    ensures Output(k, [r1, r2]) == Some([r1, r2, r2])
  {
    FoldPair(k, r1, r2);
    FirstRecordKept(k, r1);
    var st := Step(k, Start, r1).value;
    assert st.seenNames[k.name(r1)] == r1 && st.unique == [r1];
    var p := PhoneStage(k, st, r2);
    assert !p.duplicate && p.state.unique == [r1] && p.state.seenNames == st.seenNames;
    var existing := p.state.seenNames[k.name(r2)];
    assert existing == r1;
    assert k.phone(r2) != "" && k.phone(existing) != "" && k.phone(r2) != k.phone(existing);
    var n := NameStage(k, p.state, r2);
    assert n == Some(Stage(p.state.(unique := p.state.unique + [r2]), false));
    assert [r1] + [r2] + [r2] == [r1, r2, r2];
  }

  /** A record with a phone replaces a phoneless record of the same name, and
      is appended twice. */
  lemma PhoneReplacesPhonelessTwice(k: Keys, r1: Dict, r2: Dict)
    requires k.name(r1) != "" && k.name(r2) == k.name(r1)
    requires k.phone(r1) == "" && k.phone(r2) != ""
    ensures Output(k, [r1, r2]) == Some([r2, r2])
  {
    FoldPair(k, r1, r2);
    FirstRecordKept(k, r1);
    var st := Step(k, Start, r1).value;
    assert st.seenNames[k.name(r1)] == r1 && st.unique == [r1];
    var p := PhoneStage(k, st, r2);
    assert !p.duplicate && p.state.unique == [r1] && p.state.seenNames == st.seenNames;
    PhonelessReplacedByName(k, p.state, r2, r1);
    assert [r2] + [r2] == [r2, r2];
  }

  /** In the name check, a record with a phone takes the place of the
      phoneless record kept under its name, here the only record kept. */
  lemma PhonelessReplacedByName(k: Keys, q: DedupState, rec: Dict, kept: Dict)
    requires k.name(rec) in q.seenNames && q.seenNames[k.name(rec)] == kept
    requires k.phone(kept) == "" && k.phone(rec) != "" && q.unique == [kept]
    ensures NameStage(k, q, rec) == Some(Stage(DedupState(q.seenPhones, q.seenNames[k.name(rec) := rec], [rec]), false))
  {
    assert FirstIndex([kept], kept) == 0;
    assert RemoveFirst([kept], kept) == Some([]);
    assert [] + [rec] == [rec];
  }

  /** Two phoneless records of the same name: a strictly better rating replaces
      the first and is appended twice; otherwise the second is dropped. */
  lemma SameNameRatingDecides(k: Keys, r1: Dict, r2: Dict)
    requires k.name(r1) != "" && k.name(r2) == k.name(r1)
    requires k.phone(r1) == "" && k.phone(r2) == ""
    ensures Output(k, [r1, r2]) == Some(if RatesHigher(r2, r1) == Some(true) then [r2, r2] else [r1])
  {
    FoldPair(k, r1, r2);
    FirstRecordKept(k, r1);
    var st := Step(k, Start, r1).value;
    assert st.seenNames[k.name(r1)] == r1 && st.unique == [r1];
    assert PhoneStage(k, st, r2) == Stage(st, false);
    var existing := st.seenNames[k.name(r2)];
    assert existing == r1 && k.phone(existing) == "";
    var n := NameStage(k, st, r2);
    if RatesHigher(r2, r1) == Some(true) {
      assert RemoveFirst([r1], r1) == Some([]);
      assert n == Some(Stage(DedupState(st.seenPhones, st.seenNames[k.name(r2) := r2], [] + [r2]), false));
      assert [] + [r2] + [r2] == [r2, r2];
    } else {
      assert n == Some(Stage(st, true));
    }
  }

  /** The phone check of one loop iteration on the loop's variables. */
  method CheckPhone(seenPhones: map<string, Dict>, seenNames: map<string, Dict>, uniqueRecords: seq<Dict>, record: Dict, normPhone: string)
    returns (phones: map<string, Dict>, unique: seq<Dict>, isDuplicate: bool)
    requires normPhone == PhoneKey(record)
    ensures PhoneStage(SourceKeys, DedupState(seenPhones, seenNames, uniqueRecords), record)
      == Stage(DedupState(phones, seenNames, unique), isDuplicate)
  {
    phones, unique, isDuplicate := seenPhones, uniqueRecords, false;
    if |normPhone| >= 10 {
      if normPhone in phones {
        var existing := phones[normPhone];
        var existingValue := RatingValue(Get(existing, "rating", "N/A"));
        var currentValue := RatingValue(Get(record, "rating", "N/A"));
        if existingValue.Some? && currentValue.Some? && Greater(currentValue.value, existingValue.value) {
          var removed := RemoveFirst(unique, existing);
          if removed.Some? {
            unique := removed.value;
            phones := phones[normPhone := record];
            unique := unique + [record];
          }
        }
        isDuplicate := true;
      } else {
        phones := phones[normPhone := record];
      }
    }
  }

  /** The name check of one loop iteration on the loop's variables, from a state
      whose `remove` at the phone-over-phoneless branch finds its record. */
  method CheckName(seenPhones: map<string, Dict>, seenNames: map<string, Dict>, uniqueRecords: seq<Dict>, record: Dict, normPhone: string, normName: string)
    returns (names: map<string, Dict>, unique: seq<Dict>, isDuplicate: bool)
    requires normPhone == PhoneKey(record) && normName == NameKey(record)
    requires NameStage(SourceKeys, DedupState(seenPhones, seenNames, uniqueRecords), record).Some?
    ensures NameStage(SourceKeys, DedupState(seenPhones, seenNames, uniqueRecords), record)
      == Some(Stage(DedupState(seenPhones, names, unique), isDuplicate))
  {
    names, unique, isDuplicate := seenNames, uniqueRecords, false;
    if normName in names {
      var existing := names[normName];
      var existingPhone := NormalizePhone(Get(existing, "phone_number", ""));
      if normPhone != "" && existingPhone != "" && normPhone != existingPhone {
        unique := unique + [record];
      } else if normPhone != "" && existingPhone == "" {
        var removed := RemoveFirst(unique, existing);
        unique := removed.value;
        names := names[normName := record];
        unique := unique + [record];
      } else if normPhone == "" && existingPhone != "" {
        isDuplicate := true;
      } else {
        var existingValue := RatingValue(Get(existing, "rating", "N/A"));
        var currentValue := RatingValue(Get(record, "rating", "N/A"));
        if existingValue.Some? && currentValue.Some? && Greater(currentValue.value, existingValue.value) {
          var removed := RemoveFirst(unique, existing);
          if removed.Some? {
            unique := removed.value;
            names := names[normName := record];
            unique := unique + [record];
          } else {
            isDuplicate := true;
          }
        } else {
          isDuplicate := true;
        }
      }
    } else {
      names := names[normName := record];
    }
  }

  /** One more record read: the loop state after `rs[..i + 1]` is the step from
      the state after `rs[..i]`, which always succeeds. */
  lemma FoldNext(k: Keys, rs: seq<Dict>, i: nat)
    requires i < |rs|
    ensures Fold(k, rs[..i]).Some? && Step(k, Fold(k, rs[..i]).value, rs[i]).Some?
    ensures Fold(k, rs[..i + 1]) == Step(k, Fold(k, rs[..i]).value, rs[i])
  {
    FoldKeepsInv(k, rs[..i]);
    StepKeepsInv(k, Fold(k, rs[..i]).value, rs[..i], rs[i]);
    assert rs[..i + 1][..i] == rs[..i];
  }

  /** The body of the loop for one record, on a state where it does not raise. */
  method ProcessRecord(seenPhones: map<string, Dict>, seenNames: map<string, Dict>, uniqueRecords: seq<Dict>, record: Dict)
    returns (phones: map<string, Dict>, names: map<string, Dict>, unique: seq<Dict>)
    requires Step(SourceKeys, DedupState(seenPhones, seenNames, uniqueRecords), record).Some?
    ensures Step(SourceKeys, DedupState(seenPhones, seenNames, uniqueRecords), record) == Some(DedupState(phones, names, unique))
  {
    var normPhone := NormalizePhone(Get(record, "phone_number", ""));
    var normName := NormalizeName(Get(record, "store_name", ""));
    var isDuplicate;
    names := seenNames;
    phones, unique, isDuplicate := CheckPhone(seenPhones, seenNames, uniqueRecords, record, normPhone);
    if !isDuplicate && normName != "" {
      names, unique, isDuplicate := CheckName(phones, seenNames, unique, record, normPhone, normName);
    }
    if !isDuplicate {
      unique := unique + [record];
    }
  }

  /** `deduplicate_records`: the loop over the records, returning exactly the
      list `Deduplicated` describes. */
  method Deduplicate(records: seq<Dict>) returns (uniqueRecords: seq<Dict>)
    ensures Deduplicated(records) == Some(uniqueRecords)
  {
    if records == [] {
      return [];
    }
    var seenPhones: map<string, Dict> := map[];
    var seenNames: map<string, Dict> := map[];
    uniqueRecords := [];
    var i := 0;
    while i < |records|
      invariant 0 <= i <= |records|
      invariant Fold(SourceKeys, records[..i]) == Some(DedupState(seenPhones, seenNames, uniqueRecords))
    {
      FoldNext(SourceKeys, records, i);
      seenPhones, seenNames, uniqueRecords := ProcessRecord(seenPhones, seenNames, uniqueRecords, records[i]);
      i := i + 1;
    }
    assert records[..i] == records;
  }
}
