/** The workspace an apply writes to: files keyed by target, and the rows that landed
    (internal/server/apply.go). */
module Workspace {
  import opened Text
  import opened Payload
  import opened PlanModel
  import opened SecretScan

  type Files = map<string, string>

  /** What is fixed in the program: the digest (hex SHA-256), the placeholder patterns,
      the compiled files kept out of git, and the secret detectors. */
  datatype Host = Host(H: string -> string, marker: string -> bool, compiled: string -> bool, detectors: seq<Detector>)

  /** What the file system may do to one call. Writes are atomic. */
  datatype Fault = NoFault | UnsafePath | ReadFails | RemoveFails | WriteFails

  datatype RowError =
    | Disk(fault: Fault)
    | WrongPostcondition(target: string)
    | NotMaterialized(error: PayloadError)
    | MemoryFails
    | NoMemory

  datatype Landing = Landed(post: string) | Failed(error: RowError)

  function Current(files: Files, target: string): string {
    if target in files then files[target] else ""
  }

  /** The content hash of a target, "" when it is absent. */
  function Digest(host: Host, files: Files, target: string): string {
    if target in files then host.H(files[target]) else ""
  }

  predicate PostMatches(row: Row, post: string) { row.postcondition == "" || post == row.postcondition }

  /** One row on the files. A destroy removes first and compares afterwards. */
  function ApplyRow(host: Host, files: Files, row: Row, fault: Fault): (Files, Landing) {
    if fault.UnsafePath? then (files, Failed(Disk(fault)))
    else if row.op == OP_DESTROY then
      if fault.RemoveFails? then (files, Failed(Disk(fault)))
      else
        var post := host.H("");
        (files - {row.target}, if PostMatches(row, post) then Landed(post) else Failed(WrongPostcondition(row.target)))
    else if row.op == OP_CREATE || row.op == OP_MODIFY then
      if fault.ReadFails? then (files, Failed(Disk(fault)))
      else
        match Materialize(row.op, Current(files, row.target), row.payload, host.marker)
        case Refused(e) => (files, Failed(NotMaterialized(e)))
        case Bytes(body) =>
          if !PostMatches(row, host.H(body)) then (files, Failed(WrongPostcondition(row.target)))
          else if fault.WriteFails? then (files, Failed(Disk(fault)))
          else (files[row.target := body], Landed(host.H(body)))
    else (files, Failed(NotMaterialized(UnsupportedOp(row.op))))
  }

  datatype State = State(files: Files, applied: map<string, string>, wrote: seq<string>)

  /** Execute is idempotent by key: a key that landed is not applied again. */
  function ExecuteOn(host: Host, s: State, row: Row, fault: Fault): (State, Landing) {
    if row.key in s.applied then (s, Landed(s.applied[row.key]))
    else
      var (files, landing) := ApplyRow(host, s.files, row, fault);
      match landing
      case Failed(_) => (s.(files := files), landing)
      case Landed(post) =>
        (State(files, s.applied[row.key := post], if host.compiled(row.target) then s.wrote else s.wrote + [row.target]), landing)
  }

  class World {
    var files: Files
    var applied: map<string, string>
    var wrote: seq<string>

    function Value(): State
      reads this
    {
      State(files, applied, wrote)
    }

    constructor (onDisk: Files)
      ensures Value() == State(onDisk, map[], [])
    {
      files, applied, wrote := onDisk, map[], [];
    }

    method Observe(host: Host, target: string, fault: Fault) returns (r: Option<string>)
      ensures r == if fault.NoFault? then Some(Digest(host, files, target)) else None
    {
      if !fault.NoFault? {
        return None;
      }
      if target !in files {
        return Some("");
      }
      return Some(host.H(files[target]));
    }

    method Seen(key: string) returns (post: Option<string>)
      ensures post == if key in applied then Some(applied[key]) else None
    {
      return if key in applied then Some(applied[key]) else None;
    }

    method MatchPostcondition(row: Row, post: string) returns (r: Landing)
      ensures r == if PostMatches(row, post) then Landed(post) else Failed(WrongPostcondition(row.target))
    {
      if row.postcondition == "" || post == row.postcondition {
        return Landed(post);
      }
      return Failed(WrongPostcondition(row.target));
    }

    method Land(host: Host, row: Row, fault: Fault) returns (r: Landing)
      modifies this`files
      ensures (files, r) == ApplyRow(host, old(files), row, fault)
    {
      if fault.UnsafePath? {
        return Failed(Disk(fault));
      }
      if row.op == OP_DESTROY {
        if fault.RemoveFails? {
          return Failed(Disk(fault));
        }
        files := files - {row.target};
        r := MatchPostcondition(row, host.H(""));
      } else if row.op == OP_CREATE || row.op == OP_MODIFY {
        if fault.ReadFails? {
          return Failed(Disk(fault));
        }
        var current := if row.target in files then files[row.target] else "";
        var body := Materialize(row.op, current, row.payload, host.marker);
        if body.Refused? {
          return Failed(NotMaterialized(body.error));
        }
        r := MatchPostcondition(row, host.H(body.text));
        if r.Failed? {
          return;
        }
        if fault.WriteFails? {
          return Failed(Disk(fault));
        }
        files := files[row.target := body.text];
      } else {
        return Failed(NotMaterialized(UnsupportedOp(row.op)));
      }
    }

    method Execute(host: Host, row: Row, fault: Fault) returns (r: Landing)
      modifies this
      ensures (Value(), r) == ExecuteOn(host, old(Value()), row, fault)
    {
      if row.key in applied {
        return Landed(applied[row.key]);
      }
      r := Land(host, row, fault);
      if r.Failed? {
        return;
      }
      applied := applied[row.key := r.post];
      if !host.compiled(row.target) {
        wrote := wrote + [row.target];
      }
    }
  }

  // ----- what one row does -----------------------------------------------------------

  /** The one row that changes files and still fails: a destroy of a present file whose
      stated postcondition is not absence. */
  predicate MisstatedDestroy(host: Host, files: Files, row: Row, fault: Fault) {
    && row.op == OP_DESTROY && row.target in files
    && !fault.UnsafePath? && !fault.RemoveFails?
    && !PostMatches(row, host.H(""))
  }

  lemma FailureLeavesFiles(host: Host, files: Files, row: Row, fault: Fault)
    ensures var (after, landing) := ApplyRow(host, files, row, fault);
            && (landing.Failed? ==> after == if MisstatedDestroy(host, files, row, fault) then files - {row.target} else files)
            && (landing.Failed? ==> (after != files <==> MisstatedDestroy(host, files, row, fault)))
  {
    hide Materialize;
    if row.target in files {
      assert row.target !in files - {row.target};
    } else {
      assert files - {row.target} == files;
    }
  }

  /** What a row that landed leaves behind, and that nothing else changed. */
  lemma LandingIsExact(host: Host, files: Files, row: Row, fault: Fault)
    requires ApplyRow(host, files, row, fault).1.Landed?
    ensures var (after, landing) := ApplyRow(host, files, row, fault);
            && (forall t :: t != row.target ==> (t in after <==> t in files) && (t in files ==> after[t] == files[t]))
            && (row.op == OP_DESTROY ==> row.target !in after && landing.post == host.H(""))
            && (row.op != OP_DESTROY ==>
                  && row.target in after
                  && Materialize(row.op, Current(files, row.target), row.payload, host.marker) == Bytes(after[row.target])
                  && landing.post == host.H(after[row.target]))
            && PostMatches(row, landing.post)
  {
    hide Materialize;
  }
}
