/**
 * The mass role assignment of `process_file`: the file-type check, the
 * loop over the entries read from the file, and the summary reply. Reading
 * the Excel or PDF file is a parameter (the list of entries), and so is the
 * guild: its member lookups by name and by ID, and what `add_roles` does
 * for a member.
 */
module MassRole {
  import opened Wrappers
  import opened Text

  datatype FileKind = Excel | Pdf | Unsupported

  /** The type is chosen by the lower-cased file name's extension. */
  function KindOf(filename: string): (k: FileKind)
    ensures k == Excel <==> EndsWith(Lower(filename), ".xlsx")
    ensures k == Pdf <==> !EndsWith(Lower(filename), ".xlsx") && EndsWith(Lower(filename), ".pdf")
  {
    var name := Lower(filename);
    if EndsWith(name, ".xlsx") then Excel
    else if EndsWith(name, ".pdf") then Pdf
    else Unsupported
  }

  const UnsupportedFormat: string := "Unsupported file format. Please upload an Excel or PDF file."
  const Processing: string := "Processing role assignments... Please wait."
  const MaxListed: nat := 10

  /** What `add_roles` does for a member: it succeeds, raises `Forbidden`, or raises another `HTTPException`. */
  datatype AddOutcome = Added | Forbidden | HttpFailure(message: string)

  /** The guild as the loop sees it. */
  datatype Guild = Guild(byName: string -> Option<int>, byId: nat -> Option<int>, addRoles: int -> AddOutcome)

  /** `get_member_named`, and `get_member(int(entry))` only when that finds nobody and the entry is all digits. */
  function Member(entry: string, g: Guild): (m: Option<int>)
    ensures g.byName(entry).Some? ==> m == g.byName(entry)
    ensures g.byName(entry).None? && !IsDigits(entry) ==> m.None?
  {
    match g.byName(entry)
    case Some(member) => Some(member)
    case None => if IsDigits(entry) then g.byId(DigitsValue(entry)) else None
  }

  /** Where a trimmed, non-blank entry ends up. */
  datatype Fate = NotFound | Assigned | Refused | Failed(message: string)

  function FateOf(entry: string, g: Guild): Fate
  {
    match Member(entry, g)
    case None => NotFound
    case Some(member) =>
      match g.addRoles(member)
      case Added => Assigned
      case Forbidden => Refused
      case HttpFailure(message) => Failed(message)
  }

  /** The bucket of a fate: not found, assigned, permission error, HTTP error. */
  function Bucket(f: Fate): nat
  {
    match f
    case NotFound => 0
    case Assigned => 1
    case Refused => 2
    case Failed(_) => 3
  }

  /** The message sent for an HTTP error. */
  function HttpErrorMessage(entry: string, message: string): string
  {
    "Error assigning role to " + entry + ": " + message
  }

  /** The loop's running state: the count, the two error lists and the HTTP error messages sent. */
  datatype Tally = Tally(count: nat, notFound: seq<string>, permissionErrors: seq<string>, sent: seq<string>)

  /** One pass of the loop body over a raw entry: a blank entry is skipped. */
  function Step(t: Tally, raw: string, g: Guild): Tally
  {
    var entry := Strip(raw);
    if entry == "" then t else Record(t, entry, g)
  }

  /** The loop body for a trimmed, non-blank entry. */
  function Record(t: Tally, entry: string, g: Guild): Tally
  {
    match FateOf(entry, g)
    case NotFound => t.(notFound := t.notFound + [entry])
    case Assigned => t.(count := t.count + 1)
    case Refused => t.(permissionErrors := t.permissionErrors + [entry])
    case Failed(message) => t.(sent := t.sent + [HttpErrorMessage(entry, message)])
  }

  /** The state after the loop has run over `entries`. */
  function TallyOf(entries: seq<string>, g: Guild): Tally
  {
    if entries == [] then Tally(0, [], [], [])
    else Step(TallyOf(entries[..|entries| - 1], g), Last(entries), g)
  }

  /** The trimmed, non-blank entries, in order. */
  function Cleaned(entries: seq<string>): (r: seq<string>)
    ensures forall k :: 0 <= k < |r| ==> r[k] != ""
  {
    if entries == [] then []
    else
      var init := Cleaned(entries[..|entries| - 1]);
      var entry := Strip(Last(entries));
      if entry == "" then init else init + [entry]
  }

  /** The entries of `es` whose fate is in bucket `b`, in order. */
  function Select(es: seq<string>, g: Guild, b: nat): (r: seq<string>)
    ensures |r| <= |es|
  {
    if es == [] then []
    else
      var init := Select(es[..|es| - 1], g, b);
      if Bucket(FateOf(Last(es), g)) == b then init + [Last(es)] else init
  }

  /** The running state holds the bucket-by-bucket reading of the cleaned entries `es`. */
  predicate Matches(t: Tally, es: seq<string>, g: Guild)
  {
    && t.notFound == Select(es, g, 0)
    && t.count == |Select(es, g, 1)|
    && t.permissionErrors == Select(es, g, 2)
    && |t.sent| == |Select(es, g, 3)|
  }

  /** One pass of the loop body keeps the running state in step with the cleaned entries. */
  lemma RecordMatches(t: Tally, es: seq<string>, entry: string, g: Guild)
    requires Matches(t, es, g)
    ensures Matches(Record(t, entry, g), es + [entry], g)
  {
    var es' := es + [entry];
    assert es'[..|es'| - 1] == es && Last(es') == entry;
  }

  /**
   * The loop agrees with a bucket-by-bucket reading of the cleaned entries:
   * the not-found and permission lists are the cleaned entries in those
   * buckets, in input order; the count is the number assigned; one message
   * is sent per HTTP error.
   */
  lemma {:induction false} TallyIsSelection(entries: seq<string>, g: Guild)
    ensures Matches(TallyOf(entries, g), Cleaned(entries), g)
  {
    if entries != [] {
      var init := entries[..|entries| - 1];
      TallyIsSelection(init, g);
      var entry := Strip(Last(entries));
      if entry != "" {
        RecordMatches(TallyOf(init, g), Cleaned(init), entry, g);
      }
    }
  }

  /** Every cleaned entry lands in exactly one bucket. */
  lemma {:induction false} SelectPartition(es: seq<string>, g: Guild)
    ensures |Select(es, g, 0)| + |Select(es, g, 1)| + |Select(es, g, 2)| + |Select(es, g, 3)| == |es|
  {
    if es != [] {
      SelectPartition(es[..|es| - 1], g);
    }
  }

  /** An entry is in a bucket's list exactly when it is one of the entries and its fate is that bucket. */
  lemma {:induction false} SelectMembers(es: seq<string>, g: Guild, b: nat, x: string)
    ensures x in Select(es, g, b) <==> x in es && Bucket(FateOf(x, g)) == b
  {
    if es != [] {
      var init := es[..|es| - 1];
      SelectMembers(init, g, b, x);
      assert es == init + [Last(es)];
    }
  }

  /** A bucket's list keeps the input order. */
  lemma {:induction false} SelectInOrder(es: seq<string>, g: Guild, b: nat)
    ensures IsSubsequence(Select(es, g, b), es)
  {
    if es != [] {
      var init := es[..|es| - 1];
      SelectInOrder(init, g, b);
      assert init + [Last(es)] == es;
      if Bucket(FateOf(Last(es), g)) == b {
        var r := Select(init, g, b) + [Last(es)];
        assert r[..|r| - 1] == Select(init, g, b);
      } else {
        SubsequenceDropLast(Select(init, g, b), init, Last(es));
      }
    }
  }

  /**
   * Accounting of the whole loop: the successes, the not-found entries, the
   * permission errors and the HTTP errors add up to the non-blank entries.
   */
  lemma TallyAccounts(entries: seq<string>, g: Guild)
    ensures var t := TallyOf(entries, g);
      t.count + |t.notFound| + |t.permissionErrors| + |t.sent| == |Cleaned(entries)|
  {
    TallyIsSelection(entries, g);
    SelectPartition(Cleaned(entries), g);
  }

  /** The first ten entries of a list. */
  function Shown(items: seq<string>): (r: seq<string>)
    ensures |r| <= MaxListed && IsPrefix(r, items)
    ensures |items| <= MaxListed ==> r == items
  {
    if |items| <= MaxListed then items else items[..MaxListed]
  }

  predicate IsPrefix(xs: seq<string>, ys: seq<string>)
  {
    |xs| <= |ys| && ys[..|xs|] == xs
  }

  /** The tail note of a list longer than ten. */
  function Overflow(items: seq<string>): (r: string)
    ensures r == "" <==> |items| <= MaxListed
  {
    if |items| > MaxListed then "\n...and " + NatToString(|items| - MaxListed) + " more" else ""
  }

  /** One error section of the summary; an empty list has none. */
  function Section(title: string, items: seq<string>): (r: string)
    ensures r == "" <==> items == []
  {
    if items == [] then ""
    else "\n" + title + " (" + NatToString(|items|) + "):\n" + Join(Shown(items), "\n") + Overflow(items)
  }

  const NotFoundTitle: string := "\U{274C} Users not found"
  const PermissionTitle: string := "\U{26A0}\U{FE0F} Permission errors"

  function Summary(t: Tally): string
  {
    "\U{2705} Role assigned to " + NatToString(t.count) + " users successfully.\n"
      + Section(NotFoundTitle, t.notFound) + Section(PermissionTitle, t.permissionErrors)
  }

  /** Everything `process_file` sends, in order. */
  function Replies(filename: string, entries: seq<string>, g: Guild): (r: seq<string>)
    ensures KindOf(filename) == Unsupported <==> r == [UnsupportedFormat]
  {
    if KindOf(filename) == Unsupported then [UnsupportedFormat]
    else
      var t := TallyOf(entries, g);
      [Processing] + t.sent + [Summary(t)]
  }

  /** The loop of `process_file` over the entries. */
  method AssignAll(entries: seq<string>, g: Guild)
    returns (count: nat, notFound: seq<string>, permissionErrors: seq<string>, sent: seq<string>)
    ensures Tally(count, notFound, permissionErrors, sent) == TallyOf(entries, g)
  {
    count, notFound, permissionErrors, sent := 0, [], [], [];
    for i := 0 to |entries|
      invariant Tally(count, notFound, permissionErrors, sent) == TallyOf(entries[..i], g)
    {
      assert entries[..i + 1][..i] == entries[..i];
      ghost var before := Tally(count, notFound, permissionErrors, sent);
      var entry := Strip(entries[i]);
      if entry != "" {
        var member := Member(entry, g);
        if member.None? {
          notFound := notFound + [entry];
        } else {
          match g.addRoles(member.value) {
            case Added => count := count + 1;
            case Forbidden => permissionErrors := permissionErrors + [entry];
            case HttpFailure(message) => sent := sent + [HttpErrorMessage(entry, message)];
          }
        }
        assert Tally(count, notFound, permissionErrors, sent) == Record(before, entry, g);
      }
      assert TallyOf(entries[..i + 1], g) == Step(TallyOf(entries[..i], g), entries[i], g);
    }
    assert entries[..|entries|] == entries;
  }

  /** The summary, built piece by piece as `process_file` builds it. */
  method BuildSummary(count: nat, notFound: seq<string>, permissionErrors: seq<string>) returns (response: string)
    ensures response == Summary(Tally(count, notFound, permissionErrors, []))
  {
    response := "\U{2705} Role assigned to " + NatToString(count) + " users successfully.\n";
    if notFound != [] {
      var section := "\n" + NotFoundTitle + " (" + NatToString(|notFound|) + "):\n" + Join(Shown(notFound), "\n");
      if |notFound| > MaxListed {
        section := section + ("\n...and " + NatToString(|notFound| - MaxListed) + " more");
      }
      assert section == Section(NotFoundTitle, notFound);
      response := response + section;
    }
    if permissionErrors != [] {
      var section := "\n" + PermissionTitle + " (" + NatToString(|permissionErrors|) + "):\n"
        + Join(Shown(permissionErrors), "\n");
      if |permissionErrors| > MaxListed {
        section := section + ("\n...and " + NatToString(|permissionErrors| - MaxListed) + " more");
      }
      assert section == Section(PermissionTitle, permissionErrors);
      response := response + section;
    }
  }

  /** `process_file` after the file has been read into `entries`. */
  method ProcessFile(filename: string, entries: seq<string>, g: Guild) returns (messages: seq<string>)
    ensures messages == Replies(filename, entries, g)
  {
    if KindOf(filename) == Unsupported {
      return [UnsupportedFormat];
    }
    var count, notFound, permissionErrors, sent := AssignAll(entries, g);
    var response := BuildSummary(count, notFound, permissionErrors);
    messages := [Processing] + sent + [response];
  }

  /**
   * A section names the first ten entries of its list, one per line, so that
   * they can be read back from it when no entry holds a line break, and it
   * ends with the overflow note.
   */
  lemma SectionListsFirstTen(title: string, items: seq<string>)
    requires items != []
    requires forall k :: 0 <= k < |items| ==> !Contains(items[k], "\n")
    ensures var head := "\n" + title + " (" + NatToString(|items|) + "):\n";
      var listed := Join(Shown(items), "\n");
      && Section(title, items) == head + listed + Overflow(items)
      && Split(listed, "\n") == Shown(items)
  {
    var shown := Shown(items);
    assert forall k :: 0 <= k < |shown| ==> shown[k] == items[k];
    SplitJoin(shown, "\n");
  }

  /** A list of more than ten is noted with the number left out. */
  lemma OverflowCounts(items: seq<string>)
    requires |items| > MaxListed
    ensures Overflow(items) == "\n...and " + NatToString(|items| - 10) + " more"
    ensures |Shown(items)| == 10
  {
  }
}
