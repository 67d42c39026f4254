/**
 * The experiment tracker: two insertion-ordered dictionaries, parameters and
 * results, filled by `add_parameter` and `add_result`, read by item lookup, and
 * written out by `save` as the report of the parameters alone.
 *
 * The file system is a map from path to file content, handed to `Save` and
 * returned updated; the wall-clock timestamp is a constructor argument.
 */
module Tracker {
  import opened Wrappers
  import opened OrderedDict
  import opened Values
  import opened Paths
  import opened Report

  /** The error item lookup raises for a name that is not a parameter. */
  datatype LookupError = KeyError(name: string)

  type Disk = map<string, string>

  /** The file system after `save`: the report file holds exactly the report, whatever it held before. */
  function WriteReport(disk: Disk, directory: string, ps: Dict<Value>): Disk
  {
    disk[ReportPath(directory) := Render(ps)]
  }

  /** Saving replaces the report: a second save leaves what it alone would have left. */
  lemma SaveOverwrites(disk: Disk, directory: string, before: Dict<Value>, now: Dict<Value>)
    ensures WriteReport(WriteReport(disk, directory, before), directory, now)
         == WriteReport(disk, directory, now)
  {
  }

  /** Saving touches the report file and no other. */
  lemma SaveTouchesReportOnly(disk: Disk, directory: string, ps: Dict<Value>, path: string)
    ensures WriteReport(disk, directory, ps)[ReportPath(directory)] == Render(ps)
    ensures WriteReport(disk, directory, ps).Keys == disk.Keys + {ReportPath(directory)}
    ensures path != ReportPath(directory) && path in disk ==>
              path in WriteReport(disk, directory, ps) && WriteReport(disk, directory, ps)[path] == disk[path]
  {
  }

  class ExperimentTracker {
    const storyName: string
    const experimentName: string
    const experimentDirectory: string
    var parameters: Dict<Value>
    var results: Dict<Value>

    /** Every name occurs once within its own dictionary. */
    ghost predicate Valid()
      reads this
    {
      DistinctKeys(parameters) && DistinctKeys(results)
    }

    /** `ExperimentTracker(story_name, experiment_name)`, at the given time of creation. */
    constructor (storyName: string, experimentName: string, timestamp: string)
      ensures Valid()
      ensures this.storyName == storyName && this.experimentName == experimentName
      ensures experimentDirectory == DirectoryPath(storyName, timestamp, experimentName)
      ensures parameters == [] && results == []
    {
      this.storyName := storyName;
      this.experimentName := experimentName;
      experimentDirectory := DirectoryPath(storyName, timestamp, experimentName);
      parameters := [];
      results := [];
    }

    /** `tracker[name]`: the parameter's value, or `KeyError`; results are not consulted. */
    function GetItem(name: string): (r: Result<Value, LookupError>)
      reads this
      ensures r.Success? <==> name in Keys(parameters)
      ensures r.Success? ==> (name, r.value) in parameters
      ensures r.Failure? ==> r.error == KeyError(name)
    {
      match Lookup(parameters, name)
      case Some(v) => Success(v)
      case None => Failure(KeyError(name))
    }

    /** `add_parameter(name, value)`: stores any value, overwriting a known name where it stands. */
    method AddParameter(name: string, value: Value)
      requires Valid()
      modifies this
      ensures Valid()
      ensures parameters == Put(old(parameters), name, value)
      ensures results == old(results)
      ensures GetItem(name) == Success(value)
      ensures forall other :: other != name ==> GetItem(other) == old(GetItem(other))
      ensures Keys(parameters) == if name in Keys(old(parameters)) then Keys(old(parameters))
                                  else Keys(old(parameters)) + [name]
    {
      PutDistinct(parameters, name, value);
      PutKeys(parameters, name, value);
      forall other | true
        ensures Lookup(Put(parameters, name, value), other)
             == if other == name then Some(value) else Lookup(parameters, other)
      {
        PutLookup(parameters, name, value, other);
      }
      parameters := Put(parameters, name, value);
    }

    /** `add_result(name, value)`: records an int, bool, float or str; drops anything else silently. */
    method AddResult(name: string, value: Value)
      requires Valid()
      modifies this
      ensures Valid()
      ensures parameters == old(parameters)
      ensures results == if IsScalar(value) then Put(old(results), name, value) else old(results)
      ensures forall n :: GetItem(n) == old(GetItem(n))
    {
      if IsScalar(value) {
        PutDistinct(results, name, value);
        results := Put(results, name, value);
      }
    }

    /**
     * `save()`: opens the report file for writing, which empties it, and writes
     * one line per parameter in insertion order.
     */
    method Save(disk: Disk) returns (written: Disk)
      ensures written == WriteReport(disk, experimentDirectory, parameters)
    {
      var content := "";
      for i := 0 to |parameters|
        invariant content == Render(parameters[..i])
      {
        var (name, value) := parameters[i];
        RenderAppend(parameters[..i], name, value);
        assert parameters[..i + 1] == parameters[..i] + [(name, value)];
        content := content + Line(name, value);
      }
      assert parameters[..|parameters|] == parameters;
      written := disk[ReportPath(experimentDirectory) := content];
    }
  }

  lemma RenderTwo(first: (string, Value), second: (string, Value))
    ensures Render([first, second]) == Line(first.0, first.1) + Line(second.0, second.1)
  {
    var both: Dict<Value> := [first, second];
    var last: Dict<Value> := [second];
    assert both[1..] == last && last[1..] == [];
    assert Render(last) == Line(second.0, second.1);
  }

  /** The report of the usage script's parameters. */
  lemma ExampleReport()
    ensures Render([("learning_rate", FloatV("0.005")), ("network_model", StrV("fully_connected"))])
         == "learning_rate = 0.005\n" + "network_model = fully_connected\n"
  {
    RenderTwo(("learning_rate", FloatV("0.005")), ("network_model", StrV("fully_connected")));
    assert Line("learning_rate", FloatV("0.005")) == "learning_rate = 0.005\n";
    assert Line("network_model", StrV("fully_connected")) == "network_model = fully_connected\n";
  }

  /** The usage script: two parameters, a float result, and an array result that is dropped. */
  method ExampleRun(timestamp: string, disk: Disk) returns (tracker: ExperimentTracker, written: Disk)
    ensures tracker.results == [("rmse", FloatV("0.03423"))]
    ensures tracker.GetItem("learning_rate") == Success(FloatV("0.005"))
    ensures tracker.GetItem("rmse") == Failure(KeyError("rmse"))
    ensures tracker.experimentDirectory == DirectoryPath("Exemplary story name", timestamp, "training_example")
    ensures written == WriteReport(disk, tracker.experimentDirectory,
                                   [("learning_rate", FloatV("0.005")), ("network_model", StrV("fully_connected"))])
  {
    tracker := new ExperimentTracker("Exemplary story name", "training_example", timestamp);
    tracker.AddParameter("learning_rate", FloatV("0.005"));
    assert tracker.parameters == [("learning_rate", FloatV("0.005"))];
    tracker.AddParameter("network_model", StrV("fully_connected"));
    ghost var ps := [("learning_rate", FloatV("0.005")), ("network_model", StrV("fully_connected"))];
    assert tracker.parameters == ps by {
      assert "learning_rate"[0] != "network_model"[0];
    }
    tracker.AddResult("rmse", FloatV("0.03423"));
    tracker.AddResult("validation_results", Other("[[0. 0. ...]]"));
    written := tracker.Save(disk);
  }
}
