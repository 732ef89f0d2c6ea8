/**
 * The lifecycle of a build request (`Travis::Model::Request`): a wrapper
 * around a persisted request record that moves the record's state from
 * `:created` through `:started` to `:finished`, saving the record at each
 * step, and that admits or rejects the request's branch with `approved?`.
 *
 * The record belongs to the persistence layer; only the parts this wrapper
 * touches are modelled: its state, the number of times it has been saved,
 * its configuration and the branch of its commit.
 */
module RequestLifecycle {
  import opened BranchFilter

  /** The states a request record goes through. */
  datatype State = Created | Started | Finished

  /** The commit a request was made for. */
  datatype Commit = Commit(branch: string)

  /** The persisted request record.  `saves` counts the calls to `save!`. */
  class Record {
    var state: Option<State>
    var saves: nat
    const config: Config
    const commit: Commit

    /** A record as the store hands it out: no state set, never saved. */
    constructor (config: Config, commit: Commit)
      ensures this.config == config && this.commit == commit
      ensures state == None && saves == 0
    {
      this.config := config;
      this.commit := commit;
      state := None;
      saves := 0;
    }

    /** `save!`: make the record durable. */
    method Save()
      modifies this`saves
      ensures saves == old(saves) + 1
    {
      saves := saves + 1;
    }
  }

  /** The wrapper.  `jobsInitialized` stands for the reset of the job states
      of the build matrix that `configure!` performs for an approved request. */
  class Request {
    const record: Record
    var jobsInitialized: bool

    /** `Request.new(record)`: wrap a record without touching it. */
    constructor (record: Record)
      ensures this.record == record && !jobsInitialized
    {
      this.record := record;
      jobsInitialized := false;
    }

    /** `Request.create`: wrap the record that `create_from` returned, set its
        state to `:created` and save it. */
    static method Create(record: Record) returns (r: Request)
      modifies record
      ensures fresh(r) && r.record == record && !r.jobsInitialized
      ensures record.state == Some(Created)
      ensures record.saves == old(record.saves) + 1
    {
      r := new Request(record);
      record.state := Some(Created);
      record.Save();
    }

    /** `state`: the state of the wrapped record. */
    function State(): Option<State>
      reads this, record
    {
      record.state
    }

    /** `approved?`: whether the branch filter of the record's configuration
        admits the branch of its commit. */
    predicate IsApproved()
      reads this
    {
      Approved(record.config, record.commit.branch)
    }

    /** `start!`: move to `:started` and save. */
    method Start()
      modifies record
      ensures record.state == Some(Started)
      ensures record.saves == old(record.saves) + 1
    {
      record.state := Some(Started);
      record.Save();
    }

    /** `finish!`: move to `:finished`, whatever the state was, and save. */
    method Finish()
      modifies record
      ensures record.state == Some(Finished)
      ensures record.saves == old(record.saves) + 1
    {
      record.state := Some(Finished);
      record.Save();
    }

    /** `configure!(data)`: hand the data to the record and save it; when the
        branch is approved, reset the jobs of the build matrix; then finish
        the request, which saves it again.  `data` is whatever settings the
        caller hands over; their merge into the record's configuration is not
        modelled, so `data` is not read and its type is left open. */
    method Configure<D>(data: D)
      modifies this, record
      ensures record.state == Some(Finished)
      ensures record.saves == old(record.saves) + 2
      ensures jobsInitialized == (old(jobsInitialized) || IsApproved())
    {
      record.Save();
      if IsApproved() {
        jobsInitialized := true;
      }
      Finish();
    }
  }

  /** The `create` example: the request wraps the record `create_from`
      returned, and reports `:created`. */
  method CreateExample(config: Config, commit: Commit) returns (wrapped: bool, state: Option<State>)
    ensures wrapped && state == Some(Created)
  {
    var record := new Record(config, commit);
    var request := Request.Create(record);
    wrapped := request.record == record;
    state := request.State();
  }

  /** The `start!` examples: the state ends at `:started`, and from the moment
      the request is first built, the record is saved twice. */
  method StartExample(config: Config, commit: Commit) returns (state: Option<State>, saves: nat)
    ensures state == Some(Started) && saves == 2
  {
    var record := new Record(config, commit);
    var request := Request.Create(record);
    request.Start();
    state, saves := request.State(), record.saves;
  }

  /** The `configure!` examples: for an approved branch, an already built
      request ends at `:finished`, has its jobs reset, and is saved twice by
      `configure!` itself. */
  method ConfigureExample<D>(config: Config, commit: Commit, data: D)
    returns (state: Option<State>, saves: nat, jobsInitialized: bool)
    requires Approved(config, commit.branch)
    ensures state == Some(Finished) && saves == 2 && jobsInitialized
  {
    var record := new Record(config, commit);
    var request := Request.Create(record);
    var before := record.saves;
    request.Configure(data);
    state, saves, jobsInitialized := request.State(), record.saves - before, request.jobsInitialized;
  }

  /** A rejected branch still ends at `:finished`, without a job reset. */
  method ConfigureRejectedExample<D>(config: Config, commit: Commit, data: D)
    returns (state: Option<State>, jobsInitialized: bool)
    requires !Approved(config, commit.branch)
    ensures state == Some(Finished) && !jobsInitialized
  {
    var record := new Record(config, commit);
    var request := Request.Create(record);
    request.Configure(data);
    state, jobsInitialized := request.State(), request.jobsInitialized;
  }

  /** The `finish!` examples: the state ends at `:finished`, and from the
      moment the request is first built, the record is saved twice. */
  method FinishExample(config: Config, commit: Commit) returns (state: Option<State>, saves: nat)
    ensures state == Some(Finished) && saves == 2
  {
    var record := new Record(config, commit);
    var request := Request.Create(record);
    request.Finish();
    state, saves := request.State(), record.saves;
  }
}
