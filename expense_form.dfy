/** One expense section of the expense form: receipt files chosen one
    selection at a time, their removal, the accommodation switch and the
    amount limit. */
module ExpenseForm {
  import opened Wrappers
  import opened Lookup

  /** A chosen file: its name, its MIME type and its size in bytes. */
  datatype File = File(name: string, mimeType: string, size: nat)

  /** The props a section is rendered with. `maxAmount` None stands for
      `Infinity`; `fileLimit` 0 means no limit. */
  datatype SectionConfig = SectionConfig(maxAmount: Option<int>, fileLimit: nat, maxFileSize: nat, allowedTypes: seq<string>)

  /** The default `maxFileSize`, 10 MiB. */
  const DefaultMaxFileSize: nat := 10 * 1024 * 1024

  /** `expenseConfig`, with the section props' defaults filled in. */
  const AccommodationConfig := SectionConfig(Some(80000), 0, DefaultMaxFileSize, [])
  const FuelConfig := SectionConfig(None, 5, DefaultMaxFileSize, ["image/jpeg", "image/png", "image/jpg", "application/pdf"])
  const LectureFeeConfig := SectionConfig(None, 0, DefaultMaxFileSize, [])

  /** The amount the accommodation switch fills in. */
  const AccommodationDefault: int := 80000

  /** Why a file is refused; each reason raises one alert. */
  datatype Rejection = TypeNotAllowed(name: string) | TooLarge(name: string) | LimitReached(limit: nat)

  predicate TypeAllowed(c: SectionConfig, f: File) {
    |c.allowedTypes| == 0 || f.mimeType in c.allowedTypes
  }

  /** The three checks, in their order, for a file met when `count` files are
      attached or already accepted. */
  function Check(c: SectionConfig, count: nat, f: File): (r: Option<Rejection>)
    ensures r.None? <==> TypeAllowed(c, f) && f.size <= c.maxFileSize && (c.fileLimit == 0 || count < c.fileLimit)
    ensures r == Some(TypeNotAllowed(f.name)) <==> !TypeAllowed(c, f)
  {
    if !TypeAllowed(c, f) then Some(TypeNotAllowed(f.name))
    else if f.size > c.maxFileSize then Some(TooLarge(f.name))
    else if c.fileLimit > 0 && count >= c.fileLimit then Some(LimitReached(c.fileLimit))
    else None
  }

  /** The files of `selection` that are kept when `count` are attached or
      accepted before it. */
  function Accepted(c: SectionConfig, count: nat, selection: seq<File>): (r: seq<File>)
    ensures |r| <= |selection|
    decreases |selection|
  {
    if selection == [] then []
    else if Check(c, count, selection[0]).None? then [selection[0]] + Accepted(c, count + 1, selection[1..])
    else Accepted(c, count, selection[1..])
  }

  /** The alerts the same pass raises, one per refused file. */
  function Alerts(c: SectionConfig, count: nat, selection: seq<File>): (r: seq<Rejection>)
    decreases |selection|
  {
    if selection == [] then []
    else match Check(c, count, selection[0])
      case None => Alerts(c, count + 1, selection[1..])
      case Some(why) => [why] + Alerts(c, count, selection[1..])
  }

  /** Every file of a selection is either kept or reported. */
  lemma {:induction false} AcceptedOrAlerted(c: SectionConfig, count: nat, selection: seq<File>)
    ensures |Accepted(c, count, selection)| + |Alerts(c, count, selection)| == |selection|
    decreases |selection|
  {
    if selection != [] {
      AcceptedOrAlerted(c, count + 1, selection[1..]);
      AcceptedOrAlerted(c, count, selection[1..]);
    }
  }

  /** Kept files are of an allowed type and within the size limit, and keep
      their selection order. */
  lemma {:induction false} AcceptedAreAdmissible(c: SectionConfig, count: nat, selection: seq<File>)
    ensures IsSubsequence(Accepted(c, count, selection), selection)
    ensures forall k :: 0 <= k < |Accepted(c, count, selection)| ==>
      (TypeAllowed(c, Accepted(c, count, selection)[k]) && Accepted(c, count, selection)[k].size <= c.maxFileSize)
    decreases |selection|
  {
    if selection != [] {
      AcceptedAreAdmissible(c, count + 1, selection[1..]);
      AcceptedAreAdmissible(c, count, selection[1..]);
      var r := Accepted(c, count, selection);
      if Check(c, count, selection[0]).None? {
        assert r[0] == selection[0] && r[1..] == Accepted(c, count + 1, selection[1..]);
      }
    }
  }

  /** With a limit, a section that was within it stays within it. */
  lemma {:induction false} AcceptedRespectsLimit(c: SectionConfig, count: nat, selection: seq<File>)
    requires c.fileLimit > 0 && count <= c.fileLimit
    ensures count + |Accepted(c, count, selection)| <= c.fileLimit
    decreases |selection|
  {
    if selection != [] {
      if Check(c, count, selection[0]).None? {
        AcceptedRespectsLimit(c, count + 1, selection[1..]);
      } else {
        AcceptedRespectsLimit(c, count, selection[1..]);
      }
    }
  }

  /** A file is refused only for one of the three reasons: when every
      selected file has an allowed type and size, exactly as many are kept as
      the limit leaves room for. */
  lemma {:induction false} AcceptedFillsToLimit(c: SectionConfig, count: nat, selection: seq<File>)
    requires forall k :: 0 <= k < |selection| ==> TypeAllowed(c, selection[k]) && selection[k].size <= c.maxFileSize
    ensures c.fileLimit == 0 ==> Accepted(c, count, selection) == selection
    ensures c.fileLimit > 0 && count <= c.fileLimit ==>
      |Accepted(c, count, selection)| == if |selection| < c.fileLimit - count then |selection| else c.fileLimit - count
    decreases |selection|
  {
    if selection != [] {
      AcceptedFillsToLimit(c, count + 1, selection[1..]);
      AcceptedFillsToLimit(c, count, selection[1..]);
    }
  }

  /** `files.filter((_, i) => i !== index)`. */
  function RemoveAt<T>(s: seq<T>, index: int): (r: seq<T>)
    ensures 0 <= index < |s| ==> r == s[..index] + s[index + 1..]
    ensures !(0 <= index < |s|) ==> r == s
    decreases |s|
  {
    if s == [] then []
    else
      var rest := RemoveAt(s[1..], index - 1);
      if index == 0 then
        assert s[1..] == s[..0] + s[1..];
        rest
      else
        assert 0 < index < |s| ==> s[1..][..index - 1] + s[1..][index..] == s[1..index] + s[index + 1..];
        [s[0]] + rest
  }

  /** `isOverLimit`: above a finite maximum. */
  predicate IsOverLimit(amount: int, maxAmount: Option<int>) {
    maxAmount.Some? && amount > maxAmount.value
  }

  /** The maximum is shown unless it is `Infinity`. */
  predicate ShowsMaxAmount(maxAmount: Option<int>) {
    maxAmount.Some?
  }

  /** The amount the switch fills in is the accommodation maximum itself: not
      over the limit, while any larger amount is. */
  lemma {:induction false} AccommodationDefaultAtLimit(amount: int)
    ensures !IsOverLimit(AccommodationDefault, AccommodationConfig.maxAmount)
    ensures IsOverLimit(amount, AccommodationConfig.maxAmount) <==> amount > AccommodationDefault
    ensures ShowsMaxAmount(AccommodationConfig.maxAmount) && !ShowsMaxAmount(FuelConfig.maxAmount)
  {
  }

  /** A section's state: the attached files and the section's part of the
      form. */
  class ExpenseSection {
    const config: SectionConfig
    var files: seq<File>
    var amount: int
    var description: string
    var isEnabled: bool

    /** The accommodation section starts enabled only with an amount; the
        others always are. */
    constructor(config: SectionConfig, isAccommodation: bool, amount: int, description: string, formFiles: seq<File>)
      ensures this.config == config && files == formFiles
      ensures this.amount == amount && this.description == description
      ensures isEnabled == (!isAccommodation || amount > 0)
    {
      this.config := config;
      files := formFiles;
      this.amount := amount;
      this.description := description;
      isEnabled := !isAccommodation || amount > 0;
    }

    /** `handleFileSelect`: check each selected file in turn, collect the kept
        ones, then append them. The alerts are returned. */
    method HandleFileSelect(selection: seq<File>) returns (alerts: seq<Rejection>)
      modifies this
      ensures files == old(files) + Accepted(config, |old(files)|, selection)
      ensures alerts == Alerts(config, |old(files)|, selection)
      ensures amount == old(amount) && description == old(description) && isEnabled == old(isEnabled)
    {
      var valid: seq<File> := [];
      alerts := [];
      var i := 0;
      while i < |selection|
        invariant 0 <= i <= |selection|
        invariant valid + Accepted(config, |files| + |valid|, selection[i..]) == Accepted(config, |files|, selection)
        invariant alerts + Alerts(config, |files| + |valid|, selection[i..]) == Alerts(config, |files|, selection)
      {
        var f := selection[i];
        assert selection[i..][1..] == selection[i + 1..];
        var why := Check(config, |files| + |valid|, f);
        if why.Some? {
          alerts := alerts + [why.value];
        } else {
          valid := valid + [f];
        }
        i := i + 1;
      }
      files := files + valid;
    }

    /** `handleFileRemove`. */
    method HandleFileRemove(index: int)
      modifies this
      ensures files == RemoveAt(old(files), index)
      ensures amount == old(amount) && description == old(description) && isEnabled == old(isEnabled)
    {
      files := RemoveAt(files, index);
    }

    /** `handleAccommodationToggle`: on fills in 80000, off clears the amount
        and the description. */
    method HandleAccommodationToggle(checked: bool)
      modifies this
      ensures isEnabled == checked && files == old(files)
      ensures checked ==> amount == AccommodationDefault && description == old(description)
      ensures !checked ==> amount == 0 && description == ""
    {
      isEnabled := checked;
      if checked {
        amount := AccommodationDefault;
      } else {
        amount := 0;
        description := "";
      }
    }
  }
}
