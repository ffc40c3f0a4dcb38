/**
 * The `select` step of the document list
 * (`client/src/components/documents/DocumentList.tsx`): optional equality filters, one of four
 * sort orders, then a cap on the number of items.
 *
 * `Array.prototype.sort` is stable; it is modelled by a stable insertion sort driven by the
 * component's comparator. `localeCompare` is modelled by `Strings.Compare`.
 */
module DocumentList {
  import opened Wrappers
  import opened Sequences
  import opened Strings
  import opened Schema

  // ---------------------------------------------------------------- filters

  /** The `filter` prop. `categoryId` is declared but the list never applies it. */
  datatype DocumentFilter = DocumentFilter(
    personId: Option<int>, categoryId: Option<int>, typeId: Option<int>, status: Option<string>)

  /** A numeric prop that JavaScript treats as true: present and not 0. */
  predicate IsTruthyNumber(v: Option<int>) {
    v.Some? && v.value != 0
  }

  /** A string prop that JavaScript treats as true: present and not empty. */
  predicate IsTruthyText(v: Option<string>) {
    v.Some? && v.value != ""
  }

  function OwnedBy(userId: int): Document -> bool {
    (d: Document) => d.userId == userId
  }

  function OfType(typeId: int): Document -> bool {
    (d: Document) => d.typeId == typeId
  }

  function WithStatus(status: string): Document -> bool {
    (d: Document) => d.status == Some(status)
  }

  /** A document passes every filter that is set; `personId` is compared with the owner. */
  predicate Matches(filter: DocumentFilter, d: Document) {
    (IsTruthyNumber(filter.personId) ==> d.userId == filter.personId.value) &&
    (IsTruthyNumber(filter.typeId) ==> d.typeId == filter.typeId.value) &&
    (IsTruthyText(filter.status) ==> d.status == filter.status)
  }

  /** One filtering step: `xs.filter(p)` when the filter field is set, `xs` itself otherwise. */
  function KeepIf(xs: seq<Document>, apply: bool, p: Document -> bool): (r: seq<Document>)
    ensures forall d :: d in r <==> d in xs && (apply ==> p(d))
    ensures forall d {:trigger multiset(r)[d]} :: multiset(r)[d] == if apply ==> p(d) then multiset(xs)[d] else 0
    ensures IsSubsequence(r, xs) && |r| <= |xs|
  {
    if apply then Filter(xs, p)
    else
      SubsequenceOfSelf(xs);
      xs
  }

  /**
   * The filtering step: each truthy filter field keeps the documents equal to it, in order.
   * The result holds exactly the input documents that match, no more often than in the input.
   */
  function ApplyFilters(data: seq<Document>, filter: Option<DocumentFilter>): (r: seq<Document>)
    ensures forall d :: d in r <==> d in data && (filter.Some? ==> Matches(filter.value, d))
    ensures forall d :: multiset(r)[d] == (if filter.Some? ==> Matches(filter.value, d)
                                           then multiset(data)[d] else 0)
    ensures IsSubsequence(r, data) && |r| <= |data|
    ensures filter.None? ==> r == data
  {
    if filter.None? then
      SubsequenceOfSelf(data);
      data
    else
      var f := filter.value;
      var byPerson := KeepIf(data, IsTruthyNumber(f.personId), OwnedBy(f.personId.GetOr(0)));
      var byType := KeepIf(byPerson, IsTruthyNumber(f.typeId), OfType(f.typeId.GetOr(0)));
      var r := KeepIf(byType, IsTruthyText(f.status), WithStatus(f.status.GetOr("")));
      SubsequenceTransitive(byType, byPerson, data);
      SubsequenceTransitive(r, byType, data);
      assert forall d :: multiset(r)[d] == if Matches(f, d) then multiset(data)[d] else 0 by {
        forall d ensures multiset(r)[d] == if Matches(f, d) then multiset(data)[d] else 0 {
          var inPerson, inType := multiset(byPerson)[d], multiset(byType)[d];
          assert inPerson == if IsTruthyNumber(f.personId) ==> OwnedBy(f.personId.GetOr(0))(d)
                             then multiset(data)[d] else 0;
          assert inType == if IsTruthyNumber(f.typeId) ==> OfType(f.typeId.GetOr(0))(d)
                           then inPerson else 0;
        }
      }
      r
  }

  /** The category field of the filter makes no difference to the result. */
  lemma CategoryIsIgnored(data: seq<Document>, filter: DocumentFilter, categoryId: Option<int>)
    ensures ApplyFilters(data, Some(filter)) == ApplyFilters(data, Some(filter.(categoryId := categoryId)))
  {
  }

  // ---------------------------------------------------------------- comparator and sort

  /** The comparator handed to `sort`: negative when `a` goes first. */
  function CompareBy(sortBy: string, a: Document, b: Document): (c: int)
    ensures sortBy == "date_desc" ==> (c < 0 <==> a.uploadedAt > b.uploadedAt)
    ensures sortBy == "date_asc" ==> (c < 0 <==> a.uploadedAt < b.uploadedAt)
    ensures sortBy in {"date_desc", "date_asc"} ==> (c == 0 <==> a.uploadedAt == b.uploadedAt)
    ensures sortBy in {"name_asc", "name_desc"} ==> (c == 0 <==> a.originalFilename == b.originalFilename)
    ensures sortBy !in {"date_desc", "date_asc", "name_asc", "name_desc"} ==> c == 0
  {
    if sortBy == "date_desc" then b.uploadedAt - a.uploadedAt
    else if sortBy == "date_asc" then a.uploadedAt - b.uploadedAt
    else if sortBy == "name_asc" then Compare(a.originalFilename, b.originalFilename)
    else if sortBy == "name_desc" then Compare(b.originalFilename, a.originalFilename)
    else 0
  }

  /** Every mode's comparator is antisymmetric. */
  lemma CompareByAntisymmetric(sortBy: string, a: Document, b: Document)
    ensures CompareBy(sortBy, a, b) == -CompareBy(sortBy, b, a)
  {
    CompareAntisymmetric(a.originalFilename, b.originalFilename);
  }

  /** Every mode's "not after" relation is transitive. */
  lemma CompareByTransitive(sortBy: string, a: Document, b: Document, c: Document)
    requires CompareBy(sortBy, a, b) <= 0 && CompareBy(sortBy, b, c) <= 0
    ensures CompareBy(sortBy, a, c) <= 0
  {
    if sortBy == "name_asc" {
      CompareTransitive(a.originalFilename, b.originalFilename, c.originalFilename);
    } else if sortBy == "name_desc" {
      CompareTransitive(c.originalFilename, b.originalFilename, a.originalFilename);
    }
  }

  /** Each document is "not after" the next one. */
  predicate IsOrdered(sortBy: string, s: seq<Document>) {
    forall i :: 0 <= i < |s| - 1 ==> CompareBy(sortBy, s[i], s[i + 1]) <= 0
  }

  /**
   * Inserts `x` into the ordered `ys` after every element it does not precede, so that among
   * equal elements `x`, which came later, stays behind.
   */
  function Insert(sortBy: string, x: Document, ys: seq<Document>): (r: seq<Document>)
    requires IsOrdered(sortBy, ys)
    ensures IsOrdered(sortBy, r)
    ensures multiset(r) == multiset(ys) + multiset{x}
    ensures |r| == |ys| + 1
    ensures r[0] == x || (ys != [] && r[0] == ys[0])
  {
    if ys == [] then [x]
    else if CompareBy(sortBy, x, ys[0]) < 0 then [x] + ys
    else
      var tail := ys[1..];
      TailOrdered(sortBy, ys);
      CompareByAntisymmetric(sortBy, x, ys[0]);
      var rest := Insert(sortBy, x, tail);
      assert ys == [ys[0]] + tail;
      ConsOrdered(sortBy, ys[0], rest);
      [ys[0]] + rest
  }

  /** Putting a document that is "not after" the head in front keeps a list ordered. */
  lemma ConsOrdered(sortBy: string, y: Document, rest: seq<Document>)
    requires IsOrdered(sortBy, rest)
    requires rest != [] ==> CompareBy(sortBy, y, rest[0]) <= 0
    ensures IsOrdered(sortBy, [y] + rest)
  {
    var r := [y] + rest;
    forall i | 0 <= i < |r| - 1 ensures CompareBy(sortBy, r[i], r[i + 1]) <= 0 {
      if i > 0 {
        assert r[i] == rest[i - 1] && r[i + 1] == rest[i];
      }
    }
  }

  /** `filteredData.sort(comparator)`: a stable sort by the comparator of `sortBy`. */
  function SortDocuments(xs: seq<Document>, sortBy: string): (r: seq<Document>)
    ensures IsOrdered(sortBy, r)
    ensures multiset(r) == multiset(xs)
    ensures |r| == |xs|
  {
    if xs == [] then []
    else
      assert xs == xs[..|xs| - 1] + [xs[|xs| - 1]];
      Insert(sortBy, xs[|xs| - 1], SortDocuments(xs[..|xs| - 1], sortBy))
  }

  /** An ordered list is ordered between any two positions, not only neighbours. */
  lemma {:induction false} OrderedAllPairs(sortBy: string, s: seq<Document>)
    requires IsOrdered(sortBy, s)
    ensures forall i, j :: 0 <= i < j < |s| ==> CompareBy(sortBy, s[i], s[j]) <= 0
  {
    if |s| > 1 {
      var tail := s[1..];
      OrderedAllPairs(sortBy, tail);
      forall j | 1 < j < |s| ensures CompareBy(sortBy, s[0], s[j]) <= 0 {
        assert s[1] == tail[0] && s[j] == tail[j - 1];
        CompareByTransitive(sortBy, s[0], s[1], s[j]);
      }
      forall i, j | 0 < i < j < |s| ensures CompareBy(sortBy, s[i], s[j]) <= 0 {
        assert s[i] == tail[i - 1] && s[j] == tail[j - 1];
      }
    }
  }

  /** "date_desc" puts the newest upload first, "date_asc" the oldest. */
  lemma DateOrders(xs: seq<Document>)
    ensures var s := SortDocuments(xs, "date_desc");
      forall i, j :: 0 <= i < j < |s| ==> s[i].uploadedAt >= s[j].uploadedAt
    ensures var s := SortDocuments(xs, "date_asc");
      forall i, j :: 0 <= i < j < |s| ==> s[i].uploadedAt <= s[j].uploadedAt
  {
    OrderedAllPairs("date_desc", SortDocuments(xs, "date_desc"));
    OrderedAllPairs("date_asc", SortDocuments(xs, "date_asc"));
  }

  /** "name_asc" and "name_desc" order by original file name in opposite directions. */
  lemma NameOrders(xs: seq<Document>)
    ensures var s := SortDocuments(xs, "name_asc");
      forall i, j :: 0 <= i < j < |s| ==> Compare(s[i].originalFilename, s[j].originalFilename) <= 0
    ensures var s := SortDocuments(xs, "name_desc");
      forall i, j :: 0 <= i < j < |s| ==> Compare(s[j].originalFilename, s[i].originalFilename) <= 0
  {
    var up := SortDocuments(xs, "name_asc");
    assert forall i, j :: 0 <= i < j < |up| ==> Compare(up[i].originalFilename, up[j].originalFilename) <= 0 by {
      OrderedAllPairs("name_asc", up);
    }
    var down := SortDocuments(xs, "name_desc");
    assert forall i, j :: 0 <= i < j < |down| ==> Compare(down[j].originalFilename, down[i].originalFilename) <= 0 by {
      OrderedAllPairs("name_desc", down);
    }
  }

  /** Any other `sortBy` compares everything as equal, and the stable sort changes nothing. */
  lemma {:induction false} UnknownOrderKeepsInput(xs: seq<Document>, sortBy: string)
    requires sortBy !in {"date_desc", "date_asc", "name_asc", "name_desc"}
    ensures SortDocuments(xs, sortBy) == xs
  {
    if xs != [] {
      var init := xs[..|xs| - 1];
      UnknownOrderKeepsInput(init, sortBy);
      InsertLast(sortBy, xs[|xs| - 1], init);
      assert xs == init + [xs[|xs| - 1]];
    }
  }

  /** With a comparator that never says "before", insertion appends. */
  lemma {:induction false} InsertLast(sortBy: string, x: Document, ys: seq<Document>)
    requires sortBy !in {"date_desc", "date_asc", "name_asc", "name_desc"}
    requires IsOrdered(sortBy, ys)
    ensures Insert(sortBy, x, ys) == ys + [x]
  {
    if ys != [] {
      var tail := ys[1..];
      TailOrdered(sortBy, ys);
      assert CompareBy(sortBy, x, ys[0]) == 0;
      InsertLast(sortBy, x, tail);
      assert Insert(sortBy, x, ys) == [ys[0]] + Insert(sortBy, x, tail);
      assert ys + [x] == [ys[0]] + (tail + [x]);
    }
  }

  // ---------------------------------------------------------------- stability

  /** The documents the comparator of `sortBy` cannot tell apart from `y`. */
  function TiedWith(sortBy: string, y: Document): Document -> bool {
    (d: Document) => CompareBy(sortBy, d, y) == 0
  }

  /**
   * The sort is stable: the documents tied with any one document come out in the order they
   * went in.
   */
  lemma {:induction false} SortIsStable(xs: seq<Document>, sortBy: string, y: Document)
    ensures Filter(SortDocuments(xs, sortBy), TiedWith(sortBy, y)) == Filter(xs, TiedWith(sortBy, y))
  {
    if xs != [] {
      var p := TiedWith(sortBy, y);
      var init, last := xs[..|xs| - 1], xs[|xs| - 1];
      var sortedInit := SortDocuments(init, sortBy);
      assert SortDocuments(xs, sortBy) == Insert(sortBy, last, sortedInit);
      SortIsStable(init, sortBy, y);
      InsertIsStable(sortBy, last, sortedInit, y);
      assert Filter(SortDocuments(xs, sortBy), p) == Filter(init, p) + (if p(last) then [last] else []);
      SplitLast(xs);
      FilterSnoc(init, last, p);
    }
  }

  /** Inserting `x` puts it behind every document already there that is tied with it. */
  lemma {:induction false} InsertIsStable(sortBy: string, x: Document, ys: seq<Document>, y: Document)
    requires IsOrdered(sortBy, ys)
    ensures Filter(Insert(sortBy, x, ys), TiedWith(sortBy, y)) ==
      Filter(ys, TiedWith(sortBy, y)) + (if TiedWith(sortBy, y)(x) then [x] else [])
  {
    var p := TiedWith(sortBy, y);
    if ys == [] {
    } else if CompareBy(sortBy, x, ys[0]) < 0 {
      assert Insert(sortBy, x, ys) == [x] + ys;
      assert ([x] + ys)[1..] == ys;
      if p(x) {
        NothingTiedBehind(sortBy, x, ys, y);
      }
    } else {
      var tail := ys[1..];
      TailOrdered(sortBy, ys);
      InsertIsStable(sortBy, x, tail, y);
      var rest := Insert(sortBy, x, tail);
      assert Insert(sortBy, x, ys) == [ys[0]] + rest;
      assert ([ys[0]] + rest)[1..] == rest;
      var head := if p(ys[0]) then [ys[0]] else [];
      var added := if p(x) then [x] else [];
      AppendAssociative(head, Filter(tail, p), added);
    }
  }

  /** When `x` goes strictly before an ordered list and is tied with `y`, nothing in the list is. */
  lemma NothingTiedBehind(sortBy: string, x: Document, ys: seq<Document>, y: Document)
    requires IsOrdered(sortBy, ys) && ys != [] && CompareBy(sortBy, x, ys[0]) < 0
    requires CompareBy(sortBy, x, y) == 0
    ensures Filter(ys, TiedWith(sortBy, y)) == []
  {
    OrderedAllPairs(sortBy, ys);
    forall z | z in ys ensures !TiedWith(sortBy, y)(z) {
      var j :| 0 <= j < |ys| && ys[j] == z;
      if CompareBy(sortBy, z, y) == 0 {
        TiedTogether(sortBy, z, x, y);
        if j > 0 {
          assert CompareBy(sortBy, ys[0], ys[j]) <= 0;
        }
        CompareByTransitive(sortBy, ys[0], z, x);
        CompareByAntisymmetric(sortBy, x, ys[0]);
        assert false;
      }
    }
    if Filter(ys, TiedWith(sortBy, y)) != [] {
      assert Filter(ys, TiedWith(sortBy, y))[0] in Filter(ys, TiedWith(sortBy, y));
    }
  }

  /** Two documents tied with the same document are tied with each other. */
  lemma TiedTogether(sortBy: string, a: Document, b: Document, y: Document)
    requires CompareBy(sortBy, a, y) == 0 && CompareBy(sortBy, b, y) == 0
    ensures CompareBy(sortBy, a, b) == 0
  {
    CompareByAntisymmetric(sortBy, b, y);
    CompareByAntisymmetric(sortBy, a, y);
    CompareByTransitive(sortBy, a, y, b);
    CompareByTransitive(sortBy, b, y, a);
    CompareByAntisymmetric(sortBy, a, b);
  }

  lemma SplitLast(xs: seq<Document>)
    requires xs != []
    ensures xs[..|xs| - 1] + [xs[|xs| - 1]] == xs
  {
  }

  /** Dropping the first element of an ordered list leaves it ordered. */
  lemma TailOrdered(sortBy: string, ys: seq<Document>)
    requires ys != [] && IsOrdered(sortBy, ys)
    ensures IsOrdered(sortBy, ys[1..])
  {
    var tail := ys[1..];
    forall i | 0 <= i < |tail| - 1 ensures CompareBy(sortBy, tail[i], tail[i + 1]) <= 0 {
      assert tail[i] == ys[i + 1] && tail[i + 1] == ys[i + 2];
    }
  }

  // ---------------------------------------------------------------- the cap

  /**
   * `if (maxItems && filteredData.length > maxItems) filteredData = filteredData.slice(0, maxItems)`:
   * the result is always a prefix; a positive cap below the length keeps exactly that many, and a
   * negative cap drops that many from the end.
   */
  function Truncate(xs: seq<Document>, maxItems: Option<int>): (r: seq<Document>)
    ensures |r| <= |xs| && r == xs[..|r|]
    ensures !IsTruthyNumber(maxItems) ==> r == xs
    ensures IsTruthyNumber(maxItems) && maxItems.value > 0 ==>
      |r| == if |xs| > maxItems.value then maxItems.value else |xs|
    ensures IsTruthyNumber(maxItems) && maxItems.value < 0 ==>
      |r| == if |xs| + maxItems.value < 0 then 0 else |xs| + maxItems.value
  {
    if IsTruthyNumber(maxItems) && |xs| > maxItems.value then SliceTo(xs, maxItems.value) else xs
  }

  // ---------------------------------------------------------------- the select callback

  /**
   * The `select` callback: filter a copy of the fetched documents, sort it, cap it. The result
   * holds only fetched documents that pass the filters, no more often than they were fetched,
   * in the chosen order, and no more of them than a positive cap allows.
   */
  method Select(data: seq<Document>, filter: Option<DocumentFilter>, sortBy: string,
                maxItems: Option<int>) returns (result: seq<Document>)
    ensures result == Truncate(SortDocuments(ApplyFilters(data, filter), sortBy), maxItems)
    ensures |result| <= |data| && multiset(result) <= multiset(data)
    ensures forall d :: d in result ==> d in data && (filter.Some? ==> Matches(filter.value, d))
    ensures IsOrdered(sortBy, result)
    ensures IsTruthyNumber(maxItems) && maxItems.value > 0 ==> |result| <= maxItems.value
  {
    var filteredData := data;
    if filter.Some? {
      var f := filter.value;
      filteredData := KeepIf(filteredData, IsTruthyNumber(f.personId), OwnedBy(f.personId.GetOr(0)));
      filteredData := KeepIf(filteredData, IsTruthyNumber(f.typeId), OfType(f.typeId.GetOr(0)));
      filteredData := KeepIf(filteredData, IsTruthyText(f.status), WithStatus(f.status.GetOr("")));
    }
    assert filteredData == ApplyFilters(data, filter);
    filteredData := SortDocuments(filteredData, sortBy);
    ghost var sorted := filteredData;
    if IsTruthyNumber(maxItems) && |filteredData| > maxItems.value {
      filteredData := SliceTo(filteredData, maxItems.value);
    }
    result := filteredData;
    assert result == Truncate(sorted, maxItems);
    SelectedDocuments(data, filter, sortBy, maxItems);
  }

  /**
   * Filtering, sorting and capping keep only fetched documents that pass the filters, no more
   * often than they were fetched, in the chosen order, and no more of them than a positive cap.
   */
  lemma SelectedDocuments(data: seq<Document>, filter: Option<DocumentFilter>, sortBy: string,
                          maxItems: Option<int>)
    ensures var result := Truncate(SortDocuments(ApplyFilters(data, filter), sortBy), maxItems);
      |result| <= |data| && multiset(result) <= multiset(data) &&
      (forall d :: d in result ==> d in data && (filter.Some? ==> Matches(filter.value, d))) &&
      IsOrdered(sortBy, result) &&
      (IsTruthyNumber(maxItems) && maxItems.value > 0 ==> |result| <= maxItems.value)
  {
    var filtered := ApplyFilters(data, filter);
    var sorted := SortDocuments(filtered, sortBy);
    var result := Truncate(sorted, maxItems);
    assert multiset(filtered) <= multiset(data);
    PrefixKeepsOrderAndElements(sortBy, sorted, |result|);
    assert multiset(result) <= multiset(sorted) == multiset(filtered);
    forall d | d in result ensures d in filtered {
      assert multiset(sorted)[d] > 0;
    }
  }

  /** A prefix of an ordered list is ordered and holds only elements of the list. */
  lemma PrefixKeepsOrderAndElements(sortBy: string, s: seq<Document>, k: nat)
    requires IsOrdered(sortBy, s) && k <= |s|
    ensures IsOrdered(sortBy, s[..k])
    ensures multiset(s[..k]) <= multiset(s)
    ensures forall d :: d in s[..k] ==> d in s
  {
    assert s == s[..k] + s[k..];
    forall i | 0 <= i < k - 1 ensures CompareBy(sortBy, s[..k][i], s[..k][i + 1]) <= 0 {
      assert s[..k][i] == s[i] && s[..k][i + 1] == s[i + 1];
    }
  }
}
