/** The province-code utility `ProvincialCrawl`: the area names and post
    codes found in the portal's map script are paired position by position,
    after the special administrative regions and Taiwan are filtered out of
    the names (and not out of the codes), and written as `name: code` lines. */
module Provinces {
  import opened Seqs
  import opened Wrappers
  import opened Text

  /** The areas `filter_areas` rejects. */
  const ExcludedAreas: seq<string> := ["香港", "台湾", "澳门"]

  /** `filter_areas`: `None` for an excluded area, the area itself otherwise. */
  function FilterAreas(area: string): (r: Option<string>)
    ensures r.None? <==> area in ExcludedAreas
    ensures r.Some? ==> r.value == area
  {
    if area in ExcludedAreas then None else Some(area)
  }

  /** Python truthiness of what `filter_areas` returns: `None` and `""` are false. */
  predicate Truthy(r: Option<string>)
  {
    r.Some? && r.value != ""
  }

  /** `list(filter(filter_areas, provincials))`: a name is kept when the
      filter's result is truthy, so empty names go as well. */
  function FilterProvincials(names: seq<string>): (kept: seq<string>)
    ensures |kept| <= |names|
    ensures forall k :: 0 <= k < |kept| ==>
      kept[k] in names && kept[k] !in ExcludedAreas && kept[k] != ""
  {
    if names == [] then []
    else (if Truthy(FilterAreas(names[0])) then [names[0]] else []) + FilterProvincials(names[1..])
  }

  /** Filtering works name by name, so the kept names stay in their order. */
  lemma {:induction false} FilterProvincialsAppend(a: seq<string>, b: seq<string>)
    ensures FilterProvincials(a + b) == FilterProvincials(a) + FilterProvincials(b)
  {
    if a == [] {
      assert a + b == b;
    } else {
      calc {
        FilterProvincials(a + b);
        { AppendHeadTail(a, b); }
        (if Truthy(FilterAreas(a[0])) then [a[0]] else []) + FilterProvincials(a[1..] + b);
        { FilterProvincialsAppend(a[1..], b); }
        (if Truthy(FilterAreas(a[0])) then [a[0]] else []) + (FilterProvincials(a[1..]) + FilterProvincials(b));
        { AppendAssoc((if Truthy(FilterAreas(a[0])) then [a[0]] else []), FilterProvincials(a[1..]), FilterProvincials(b)); }
        ((if Truthy(FilterAreas(a[0])) then [a[0]] else []) + FilterProvincials(a[1..])) + FilterProvincials(b);
      }
    }
  }

  /** Every name that is neither excluded nor empty survives. */
  lemma {:induction false} FilterProvincialsComplete(names: seq<string>, k: int)
    requires 0 <= k < |names| && names[k] !in ExcludedAreas && names[k] != ""
    ensures names[k] in FilterProvincials(names)
  {
    if k > 0 {
      FilterProvincialsComplete(names[1..], k - 1);
    }
  }

  /** A list without excluded or empty names passes unchanged. */
  lemma {:induction false} FilterProvincialsKeepsOrdinary(names: seq<string>)
    requires forall k :: 0 <= k < |names| ==> names[k] !in ExcludedAreas && names[k] != ""
    ensures FilterProvincials(names) == names
  {
    if names != [] {
      FilterProvincialsKeepsOrdinary(names[1..]);
      assert names == [names[0]] + names[1..];
    }
  }

  /** `p + ": " + c`, the text of one line without its newline. */
  function AreaCode(p: string, c: string): string
  {
    p + ": " + c
  }

  function Min(a: int, b: int): int
  {
    if a <= b then a else b
  }

  /** The lines `zip(provincials, codes)` produces: as many as the shorter list. */
  function AreaCodes(provincials: seq<string>, codes: seq<string>): (lines: seq<string>)
    ensures |lines| == Min(|provincials|, |codes|)
    ensures forall i :: 0 <= i < |lines| ==> lines[i] == AreaCode(provincials[i], codes[i])
  {
    seq(Min(|provincials|, |codes|), i requires 0 <= i < Min(|provincials|, |codes|) =>
      AreaCode(provincials[i], codes[i]))
  }

  /** The text `save_txt` writes: each line followed by a newline. */
  function FileText(lines: seq<string>): string
  {
    if lines == [] then "" else lines[0] + "\n" + FileText(lines[1..])
  }

  /** The contents of `provincial-code.txt` for the names and codes of the
      map script. */
  function ProvincialCodeFile(names: seq<string>, codes: seq<string>): string
  {
    FileText(AreaCodes(FilterProvincials(names), codes))
  }

  /** Reading the file back: split at newlines it gives the written lines,
      followed by the empty piece after the final newline. */
  lemma {:induction false} FileTextLines(lines: seq<string>)
    requires forall i :: 0 <= i < |lines| ==> '\n' !in lines[i]
    ensures Split(FileText(lines), '\n') == lines + [""]
  {
    if lines == [] {
      assert Split("", '\n') == [""];
    } else {
      FileTextLines(lines[1..]);
      assert lines[0] + "\n" + FileText(lines[1..]) == lines[0] + ['\n'] + FileText(lines[1..]);
      SplitPieceThenSeparator(lines[0], '\n', FileText(lines[1..]));
      assert lines == [lines[0]] + lines[1..];
    }
  }

  /** End to end: with names and codes free of newlines, the file holds one
      line `name: code` per position up to the shorter of the filtered names
      and the unfiltered codes. */
  lemma ProvincialCodeFileLines(names: seq<string>, codes: seq<string>)
    requires forall i :: 0 <= i < |names| ==> '\n' !in names[i]
    requires forall i :: 0 <= i < |codes| ==> '\n' !in codes[i]
    ensures var kept := FilterProvincials(names);
      Split(ProvincialCodeFile(names, codes), '\n') == AreaCodes(kept, codes) + [""] &&
      |AreaCodes(kept, codes)| == Min(|kept|, |codes|)
  {
    var kept := FilterProvincials(names);
    var lines := AreaCodes(kept, codes);
    forall i | 0 <= i < |lines|
      ensures '\n' !in lines[i]
    {
      assert kept[i] in names;
      assert lines[i] == kept[i] + ": " + codes[i];
    }
    FileTextLines(lines);
  }

  /** An excluded name ahead of the others shifts the pairing: the codes are
      not filtered, so the next name is paired with the excluded area's code. */
  lemma PairingShiftsPastExcludedArea(n: string, c0: string, c1: string)
    requires n !in ExcludedAreas && n != ""
    ensures AreaCodes(FilterProvincials(["香港", n]), [c0, c1]) == [AreaCode(n, c0)]
  {
    assert ["香港", n][1..] == [n];
    assert [n][1..] == [];
    assert FilterProvincials(["香港", n]) == [n];
  }
}
