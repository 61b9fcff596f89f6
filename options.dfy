/**
 * The command-line options of the predicate server: their defaults and their validation.
 * Flag binding is not part of this model.
 */
module Options {

  datatype Options = Options(
    kubeConfig: string,
    master: string,
    port: int,
    reservedCpuAnnoKey: string,
    reservedMemAnnoKey: string,
    considerUnboundLocalPV: bool)

  /** The problems validation reports, one per check. */
  datatype OptionError = NeitherKubeConfigNorMaster | PortNotPositive(port: int)

  /** The defaults: listen on 8089, the standard annotation keys, unbound volumes considered, no API server given. */
  function NewOptions(): (o: Options)
    ensures o.port == 8089 && o.port > 0
    ensures o.reservedCpuAnnoKey == "reserved-cpu" && o.reservedMemAnnoKey == "reserved-mem"
    ensures o.considerUnboundLocalPV
    ensures o.kubeConfig == [] && o.master == []
  {
    Options([], [], 8089, "reserved-cpu", "reserved-mem", true)
  }

  /** Both server addresses are missing. */
  predicate NoApiServer(o: Options)
  {
    |o.kubeConfig| == 0 && |o.master| == 0
  }

  /**
   * What validation reports, in the order the checks run: the missing API server first, then a
   * port that is not positive.
   */
  function ValidationErrors(o: Options): (errs: seq<OptionError>)
    ensures NeitherKubeConfigNorMaster in errs <==> NoApiServer(o)
    ensures PortNotPositive(o.port) in errs <==> o.port <= 0
    ensures forall e | e in errs :: e == NeitherKubeConfigNorMaster || e == PortNotPositive(o.port)
    ensures |errs| <= 2
    ensures |errs| == 2 ==> errs == [NeitherKubeConfigNorMaster, PortNotPositive(o.port)]
    ensures errs == [] <==> !NoApiServer(o) && o.port > 0
  {
    (if NoApiServer(o) then [NeitherKubeConfigNorMaster] else [])
    + (if o.port <= 0 then [PortNotPositive(o.port)] else [])
  }

  /** Validate collects the errors one check at a time; the options are a value and stay as they are. */
  method Validate(o: Options) returns (errs: seq<OptionError>)
    ensures errs == ValidationErrors(o)
  {
    errs := [];
    if |o.kubeConfig| == 0 && |o.master| == 0 {
      errs := errs + [NeitherKubeConfigNorMaster];
    }
    if o.port <= 0 {
      errs := errs + [PortNotPositive(o.port)];
    }
  }

  /** The defaults alone do not validate: they name no API server, and nothing else is wrong. */
  lemma DefaultsNeedApiServer()
    ensures ValidationErrors(NewOptions()) == [NeitherKubeConfigNorMaster]
  {
  }
}
