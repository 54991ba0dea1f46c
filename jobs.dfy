/**
 * What a job builder hands to the framework: the positional parameters of
 * a main function, the declared output ports, and the job descriptor that
 * is appended to the process-wide registry `jobs_dict`.
 *
 * The framework helpers a builder calls (`transform_port_name_lvl`,
 * `transform_port_size_lvl`, `job_name_create`,
 * `get_module_name_from_file` and the `str` of a float) are defined
 * elsewhere; they are the fields of a `Helpers` value, so every statement
 * here holds whatever they compute.
 */
module Jobs {
  import opened Py

  /** A pyramid level (`PYRAMID_LEVEL`), identified by its index. */
  datatype Level = Level(index: nat)

  const Level0: Level := Level(0)

  /** One entry of a main function's positional parameter list. */
  datatype Param = PStr(s: string) | PInt(i: int) | PReal(r: real) | PNone

  /** The framework helpers a builder calls. */
  datatype Helpers = Helpers(
    nameLvl: (string, Level) -> string,
    sizeLvl: (Level, bool) -> string,
    jobNameCreate: (string, seq<string>, seq<int>, Level) -> string,
    moduleName: string,
    floatStr: real -> string)

  /** A declared output: port name, shape expression, dtype code and whether it is a colour image. */
  datatype OutputPort = OutputPort(name: string, size: string, dtype: string, isColor: bool)

  /** The arguments of `create_dictionary_element`: everything the framework learns about a job. */
  datatype JobDescriptor = JobDescriptor(
    jobModule: string,
    name: string,
    inputPorts: seq<string>,
    initFuncName: string,
    initFuncParam: Option<seq<Param>>,
    mainFuncName: string,
    mainFuncParam: seq<Param>,
    outputPorts: seq<OutputPort>)

  /** The state an init function returns (`JobInitStateReturn`). */
  datatype InitState = Init | NotInit

  /** The process-wide list `jobs_dict` of registered jobs. */
  class JobRegistry {
    var jobs: seq<JobDescriptor>

    constructor ()
      ensures jobs == []
    {
      jobs := [];
    }

    /** `jobs_dict.append(d)`: one more entry at the end, the earlier ones unchanged. */
    method Append(d: JobDescriptor)
      modifies this
      ensures jobs == old(jobs) + [d]
    {
      jobs := jobs + [d];
    }
  }
}
