/** Output naming: `save_video` in `China_Trial/crawl/trial.py` strips the
    characters `<>:"/\|?*` and U+0000..U+001F from the case title and adds
    `.mp4`; `crawl/specify_trial.py` names the file `云南话_<task>.mp4`. */
module FileNames {
  import opened Seqs
  import opened Wrappers

  /** The characters of the character class `[<>:"/\\|?*\x00-\x1F]`. */
  predicate IsUnsafe(c: char)
  {
    c in "<>:\"/\\|?*" || c <= '\U{1F}'
  }

  /** `re.sub(r'[<>:"/\\|?*\x00-\x1F]', '', title)`. */
  function Sanitize(title: string): (r: string)
    ensures |r| <= |title|
    ensures forall k :: 0 <= k < |r| ==> !IsUnsafe(r[k]) && r[k] in title
  {
    if title == [] then []
    else (if IsUnsafe(title[0]) then [] else [title[0]]) + Sanitize(title[1..])
  }

  /** Removal works piece by piece, so the kept characters stay in order. */
  lemma {:induction false} SanitizeAppend(a: string, b: string)
    ensures Sanitize(a + b) == Sanitize(a) + Sanitize(b)
  {
    if a == [] {
      assert a + b == b;
    } else {
      calc {
        Sanitize(a + b);
        { AppendHeadTail(a, b); }
        (if IsUnsafe(a[0]) then [] else [a[0]]) + Sanitize(a[1..] + b);
        { SanitizeAppend(a[1..], b); }
        (if IsUnsafe(a[0]) then [] else [a[0]]) + (Sanitize(a[1..]) + Sanitize(b));
        { AppendAssoc((if IsUnsafe(a[0]) then [] else [a[0]]), Sanitize(a[1..]), Sanitize(b)); }
        ((if IsUnsafe(a[0]) then [] else [a[0]]) + Sanitize(a[1..])) + Sanitize(b);
      }
    }
  }

  /** Only unsafe characters are removed: every safe character of the title
      is still there. */
  lemma {:induction false} SanitizeKeepsSafe(title: string, k: int)
    requires 0 <= k < |title| && !IsUnsafe(title[k])
    ensures title[k] in Sanitize(title)
  {
    if k > 0 {
      SanitizeKeepsSafe(title[1..], k - 1);
    }
  }

  /** A title without unsafe characters is kept as it is. */
  lemma {:induction false} SanitizeSafeTitle(title: string)
    requires forall k :: 0 <= k < |title| ==> !IsUnsafe(title[k])
    ensures Sanitize(title) == title
  {
    if title != [] {
      SanitizeSafeTitle(title[1..]);
      assert title == [title[0]] + title[1..];
    }
  }

  /** Sanitising twice gives the same name as sanitising once. */
  lemma SanitizeIdempotent(title: string)
    ensures Sanitize(Sanitize(title)) == Sanitize(title)
  {
    SanitizeSafeTitle(Sanitize(title));
  }

  /** The file name `save_video` in `China_Trial/crawl/trial.py` writes to. */
  function VideoFileName(caseTitle: string): string
  {
    Sanitize(caseTitle) + ".mp4"
  }

  /** Everything before the `.mp4` suffix is free of unsafe characters and
      is exactly the sanitised title. */
  lemma VideoFileNameSafe(caseTitle: string)
    ensures var name := VideoFileName(caseTitle);
      |name| >= 4 && name[|name| - 4..] == ".mp4" &&
      name[..|name| - 4] == Sanitize(caseTitle) &&
      forall k :: 0 <= k < |name| - 4 ==> !IsUnsafe(name[k])
  {
  }

  const SpecifyPrefix: string := "云南话_"

  /** The file name `save_video` in `crawl/specify_trial.py` writes to. */
  function SpecifyFileName(task: string): string
  {
    SpecifyPrefix + task + ".mp4"
  }

  /** Recovers the task id from a file name of the specify variant. */
  function TaskOfFileName(name: string): (task: Option<string>)
  {
    if |name| >= |SpecifyPrefix| + 4 && name[..|SpecifyPrefix|] == SpecifyPrefix && name[|name| - 4..] == ".mp4"
    then Some(name[|SpecifyPrefix|..|name| - 4])
    else None
  }

  /** The specify file name determines its task: reading the task back out
      of the name gives it again, so distinct tasks get distinct files. */
  lemma SpecifyFileNameRoundTrip(task: string)
    ensures TaskOfFileName(SpecifyFileName(task)) == Some(task)
  {
    var name := SpecifyFileName(task);
    assert name[..|SpecifyPrefix|] == SpecifyPrefix;
    assert name[|name| - 4..] == ".mp4";
    assert name[|SpecifyPrefix|..|name| - 4] == task;
  }
}
