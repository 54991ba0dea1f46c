/**
 * The SIFT feature-detection job: its builder `do_sift_job`, which names
 * the outputs, declares them and registers one job descriptor, and its
 * main function `main_func`, which runs OpenCV's SIFT on the input port
 * and copies the keypoints, descriptors and drawn image into the output
 * ports.
 *
 * OpenCV is the `Cv` value given to the main function: detection and
 * drawing may fail (None), and a detection may have no descriptor matrix.
 */
module FeatureDetection {
  import opened Py
  import opened Strings
  import opened Jobs
  import opened Ports

  // ---------------------------------------------------------------------------
  // The builder

  /** The parameters of `do_sift_job`; an absent name or mask is None. */
  datatype SiftConfig = SiftConfig(
    portInputName: string,
    numberFeatures: int,
    numberOctaves: int,
    contrastThreshold: real,
    edgeThreshold: int,
    gaussianSigma: real,
    maskPortName: Option<string>,
    portKpOutput: Option<string>,
    portDesOutput: Option<string>,
    portImgOutput: Option<string>,
    level: Level,
    waveOffset: int)

  /** `do_sift_job(port_input_name)` with every other parameter at its default. */
  function SiftDefaults(portInputName: string): (c: SiftConfig)
    ensures c.portInputName == portInputName
    ensures c.numberFeatures == 512 && c.numberOctaves == 3 && c.edgeThreshold == 10
    ensures c.contrastThreshold == 0.04 && c.gaussianSigma == 1.6
    ensures c.maskPortName.None? && c.portKpOutput.None? && c.portDesOutput.None? && c.portImgOutput.None?
    ensures c.level == Level0 && c.waveOffset == 0
  {
    SiftConfig(portInputName, 512, 3, 0.04, 10, 1.6, None, None, None, None, Level0, 0)
  }

  /** The start of the default name of each output. */
  const KeypointsPrefix: string := "SIFT_KP_"
  const DescriptorsPrefix: string := "SIFT_DES_"
  const ImagePrefix: string := "SIFT_IMG_"
  const MaskMarker: string := "_MASKED_BY_"

  /** A float as it appears in a port name: its `str` with `.` replaced by `_`. */
  function FloatTag(h: Helpers, x: real): string
  {
    ReplaceChar(h.floatStr(x), '.', '_')
  }

  /** The parameter part of a default output name: the feature count, then the other parameters. */
  function ParameterStem(h: Helpers, c: SiftConfig): string
  {
    "NF_" + IntToString(c.numberFeatures) + OtherParameters(h, c)
  }

  /** The parameters after the feature count, ending with the input name as given. */
  function OtherParameters(h: Helpers, c: SiftConfig): (r: string)
    ensures |r| > 0 && r[0] == '_'
  {
    "_NO_" + IntToString(c.numberOctaves) + "_CT_" + FloatTag(h, c.contrastThreshold)
    + "_ET_" + IntToString(c.edgeThreshold) + "_G_" + FloatTag(h, c.gaussianSigma) + "_" + c.portInputName
  }

  function MaskSuffix(mask: Option<string>): string
  {
    if mask.Some? then MaskMarker + mask.value else ""
  }

  /** The name an output gets when the caller gives none: its prefix, the parameters, then the mask suffix. */
  function DefaultName(prefix: string, h: Helpers, c: SiftConfig): string
  {
    prefix + ParameterStem(h, c) + MaskSuffix(c.maskPortName)
  }

  function OutputName(given: Option<string>, prefix: string, h: Helpers, c: SiftConfig): string
  {
    if given.Some? then given.value else DefaultName(prefix, h, c)
  }

  /** The triple `do_sift_job` returns. */
  datatype SiftNames = SiftNames(keypoints: string, descriptors: string, image: string)

  /** What one call of `do_sift_job` computes: the names it returns and the descriptor it registers. */
  datatype SiftPlan = SiftPlan(names: SiftNames, descriptor: JobDescriptor)

  /** `'(<n>, <width>)'`, the shape of an `n`-row matrix. */
  function MatrixSize(n: int, width: string): string
  {
    "(" + IntToString(n) + ", " + width + ")"
  }

  function SiftJob(h: Helpers, c: SiftConfig): SiftPlan
  {
    var inputPortName := h.nameLvl(c.portInputName, c.level);
    var kp := OutputName(c.portKpOutput, KeypointsPrefix, h, c);
    var des := OutputName(c.portDesOutput, DescriptorsPrefix, h, c);
    var img := OutputName(c.portImgOutput, ImagePrefix, h, c);
    var kpName, desName, imgName := h.nameLvl(kp, c.level), h.nameLvl(des, c.level), h.nameLvl(img, c.level);
    var mask := if c.maskPortName.Some? then PStr(h.nameLvl(c.maskPortName.value, c.level)) else PNone;
    var inputs := [inputPortName];
    var mainParams := [PStr(inputPortName), PInt(c.waveOffset), PInt(c.numberFeatures), PInt(c.numberOctaves),
                       PReal(c.contrastThreshold), PInt(c.edgeThreshold), PReal(c.gaussianSigma), mask,
                       PStr(kpName), PStr(desName), PStr(imgName)];
    var outputs := [OutputPort(kpName, MatrixSize(c.numberFeatures, "7"), "H", false),
                    OutputPort(desName, MatrixSize(c.numberFeatures, "128"), "H", false),
                    OutputPort(imgName, h.sizeLvl(c.level, true), "B", true)];
    var jobName := h.jobNameCreate("SIFT", inputs, [c.waveOffset], c.level);
    SiftPlan(SiftNames(kp, des, img),
             JobDescriptor(h.moduleName, jobName, inputs, "init_func_sift", None, "main_func", mainParams, outputs))
  }

  /** `do_sift_job`: one descriptor appended to the registry, the output names returned. */
  method DoSiftJob(registry: JobRegistry, h: Helpers, c: SiftConfig) returns (names: SiftNames)
    modifies registry
    ensures registry.jobs == old(registry.jobs) + [SiftJob(h, c).descriptor]
    ensures names == SiftJob(h, c).names
  {
    var plan := SiftJob(h, c);
    registry.Append(plan.descriptor);
    names := plan.names;
  }

  /** `init_func_sift`: the job always starts. */
  function InitFuncSift(): (r: InitState)
    ensures r == Init
  {
    Init
  }

  // ---------------------------------------------------------------------------
  // Properties of the builder

  /**
   * A name the caller gives is returned as is, never with the mask suffix;
   * a default name is `SIFT_KP_`, `SIFT_DES_` or `SIFT_IMG_`, the
   * parameters ending with the input name as given (not level-transformed),
   * and the mask suffix.
   */
  lemma SiftNamesChosen(h: Helpers, c: SiftConfig)
    ensures c.portKpOutput.Some? ==> SiftJob(h, c).names.keypoints == c.portKpOutput.value
    ensures c.portDesOutput.Some? ==> SiftJob(h, c).names.descriptors == c.portDesOutput.value
    ensures c.portImgOutput.Some? ==> SiftJob(h, c).names.image == c.portImgOutput.value
    ensures c.portKpOutput.None? ==>
      SiftJob(h, c).names.keypoints == KeypointsPrefix + ParameterStem(h, c) + MaskSuffix(c.maskPortName)
    ensures c.portDesOutput.None? ==>
      SiftJob(h, c).names.descriptors == DescriptorsPrefix + ParameterStem(h, c) + MaskSuffix(c.maskPortName)
    ensures c.portImgOutput.None? ==>
      SiftJob(h, c).names.image == ImagePrefix + ParameterStem(h, c) + MaskSuffix(c.maskPortName)
  {
  }

  /**
   * The mask suffix is there exactly when a mask is given: with a mask,
   * the default name is the one without a mask extended by
   * `_MASKED_BY_<mask>`.
   */
  lemma MaskSuffixOnlyWithMask(prefix: string, h: Helpers, c: SiftConfig, mask: string)
    ensures DefaultName(prefix, h, c.(maskPortName := Some(mask)))
      == DefaultName(prefix, h, c.(maskPortName := None)) + MaskMarker + mask
    ensures |DefaultName(prefix, h, c.(maskPortName := Some(mask)))| > |DefaultName(prefix, h, c.(maskPortName := None))|
  {
    var stem := ParameterStem(h, c);
    assert ParameterStem(h, c.(maskPortName := Some(mask))) == stem;
    assert ParameterStem(h, c.(maskPortName := None)) == stem;
  }

  /** The three default names differ whatever the parameters. */
  lemma DefaultNamesDistinct(h: Helpers, c: SiftConfig)
    ensures DefaultName(KeypointsPrefix, h, c) != DefaultName(DescriptorsPrefix, h, c)
    ensures DefaultName(KeypointsPrefix, h, c) != DefaultName(ImagePrefix, h, c)
    ensures DefaultName(DescriptorsPrefix, h, c) != DefaultName(ImagePrefix, h, c)
  {
    assert DefaultName(KeypointsPrefix, h, c)[5] == 'K';
    assert DefaultName(DescriptorsPrefix, h, c)[5] == 'D';
    assert DefaultName(ImagePrefix, h, c)[5] == 'I';
  }

  /** The characters of `s` before its first `_`. */
  function UntilUnderscore(s: string): (r: string)
    ensures '_' !in r && |r| <= |s| && r == s[..|r|]
  {
    if |s| == 0 || s[0] == '_' then [] else [s[0]] + UntilUnderscore(s[1..])
  }

  /** The text before a piece that starts with `_` is found again by `UntilUnderscore`. */
  lemma {:induction false} UntilUnderscoreOf(a: string, r: string)
    requires '_' !in a && |r| > 0 && r[0] == '_'
    ensures UntilUnderscore(a + r) == a
    decreases |a|
  {
    if |a| == 0 {
      assert a + r == r;
    } else {
      assert (a + r)[0] == a[0];
      assert (a + r)[1..] == a[1..] + r;
      UntilUnderscoreOf(a[1..], r);
      assert a == [a[0]] + a[1..];
    }
  }

  /** A default name starts with its prefix and the feature count, followed by `_`. */
  lemma DefaultNameShape(prefix: string, h: Helpers, c: SiftConfig)
    ensures var head, count := prefix + "NF_", IntToString(c.numberFeatures);
      && DefaultName(prefix, h, c)[|head|..] == count + (OtherParameters(h, c) + MaskSuffix(c.maskPortName))
      && (OtherParameters(h, c) + MaskSuffix(c.maskPortName))[0] == '_'
  {
    SkipHead(prefix, "NF_", IntToString(c.numberFeatures), OtherParameters(h, c), MaskSuffix(c.maskPortName));
  }

  lemma SkipHead(p: string, q: string, x: string, y: string, z: string)
    ensures ((p + ((q + x) + y)) + z)[|p + q|..] == x + (y + z)
  {
    assert (p + ((q + x) + y)) + z == (p + q) + (x + (y + z));
  }

  /**
   * A default name determines the number of features: two configurations
   * that give the same default name of a kind ask for the same number of
   * features.
   */
  lemma DefaultNameDeterminesFeatures(prefix: string, h: Helpers, c1: SiftConfig, c2: SiftConfig)
    requires DefaultName(prefix, h, c1) == DefaultName(prefix, h, c2)
    ensures c1.numberFeatures == c2.numberFeatures
  {
    DefaultNameShape(prefix, h, c1);
    DefaultNameShape(prefix, h, c2);
    var a1, a2 := IntToString(c1.numberFeatures), IntToString(c2.numberFeatures);
    var r1 := OtherParameters(h, c1) + MaskSuffix(c1.maskPortName);
    var r2 := OtherParameters(h, c2) + MaskSuffix(c2.maskPortName);
    assert a1 + r1 == a2 + r2;
    UntilUnderscoreOf(a1, r1);
    UntilUnderscoreOf(a2, r2);
    IntToStringInjective(c1.numberFeatures, c2.numberFeatures);
  }

  /**
   * The declarations of a SIFT job: its only input is the level-transformed
   * input port; its three outputs carry the level-transformed output names
   * (`do_sift_job` returns them untransformed), with shapes `(nf, 7)` and
   * `(nf, 128)` of dtype `H` and an image of the level's size, dtype `B`,
   * in colour.
   */
  lemma SiftJobDeclarations(h: Helpers, c: SiftConfig)
    ensures var d := SiftJob(h, c).descriptor;
      && d.inputPorts == [h.nameLvl(c.portInputName, c.level)]
      && d.name == h.jobNameCreate("SIFT", d.inputPorts, [c.waveOffset], c.level)
      && d.jobModule == h.moduleName
      && d.initFuncName == "init_func_sift" && d.initFuncParam.None? && d.mainFuncName == "main_func"
    ensures var names, outs := SiftJob(h, c).names, SiftJob(h, c).descriptor.outputPorts;
      && |outs| == 3
      && outs[0] == OutputPort(h.nameLvl(names.keypoints, c.level), MatrixSize(c.numberFeatures, "7"), "H", false)
      && outs[1] == OutputPort(h.nameLvl(names.descriptors, c.level), MatrixSize(c.numberFeatures, "128"), "H", false)
      && outs[2] == OutputPort(h.nameLvl(names.image, c.level), h.sizeLvl(c.level, true), "B", true)
  {
  }

  // ---------------------------------------------------------------------------
  // The main function

  /** A keypoint as OpenCV returns it (`cv2.KeyPoint`). */
  datatype Keypoint = Keypoint(x: real, y: real, size: real, angle: real, response: real, octave: int, classId: int)

  /** The result of `detectAndCompute`: the keypoints and the descriptor matrix, None when there is none. */
  datatype Detection = Detection(keypoints: seq<Keypoint>, descriptors: Option<seq<Row>>)

  /**
   * The OpenCV calls of the main function: creating the detector with the
   * five SIFT parameters and running it on the image and mask (None when
   * either raises), drawing the keypoints over the output image (None when
   * it raises), and `save_keypoint_to_array`.
   */
  datatype Cv = Cv(
    detect: (seq<Param>, seq<Row>, seq<Row>) -> Option<Detection>,
    draw: (seq<Row>, seq<Keypoint>, seq<Row>) -> Option<seq<Row>>,
    keypointRow: Keypoint -> Row)

  const MainParamCount: nat := 11
  const PortInPos: nat := 0
  const PortInWave: nat := 1
  const PortInNrFeatures: nat := 2
  const PortInSigma: nat := 6
  const PortInMask: nat := 7
  const PortOutKeypoints: nat := 8
  const PortOutDescriptors: nat := 9
  const PortOutImg: nat := 10

  /** The five ports the main function looks up. */
  datatype MainPorts = MainPorts(input: PortKey, mask: PortKey, keypoints: PortKey, descriptors: PortKey, image: PortKey)

  /**
   * The lookups of the main function: the input and the mask at the input's
   * wave offset, the mask falling back to the input when it is None, and
   * the outputs at the default wave offset.
   */
  function MainPortsOf(params: seq<Param>, defaultWave: Param): (p: MainPorts)
    requires |params| == MainParamCount
    ensures p.input == PortKey(params[PortInPos], params[PortInWave])
    ensures params[PortInMask] != PNone ==> p.mask == PortKey(params[PortInMask], params[PortInWave])
    ensures params[PortInMask] == PNone ==> p.mask == p.input
    ensures p.keypoints == PortKey(params[PortOutKeypoints], defaultWave)
    ensures p.descriptors == PortKey(params[PortOutDescriptors], defaultWave)
    ensures p.image == PortKey(params[PortOutImg], defaultWave)
  {
    var input := PortKey(params[PortInPos], params[PortInWave]);
    var mask := if params[PortInMask] != PNone then PortKey(params[PortInMask], params[PortInWave]) else input;
    MainPorts(input, mask, PortKey(params[PortOutKeypoints], defaultWave),
              PortKey(params[PortOutDescriptors], defaultWave), PortKey(params[PortOutImg], defaultWave))
  }

  predicate AllFound(p: MainPorts, s: map<PortKey, PortState>)
  {
    p.input in s && p.mask in s && p.keypoints in s && p.descriptors in s && p.image in s
  }

  function KeypointRows(cv: Cv, kps: seq<Keypoint>): (r: seq<Row>)
    ensures |r| == |kps|
  {
    seq(|kps|, i requires 0 <= i < |kps| => cv.keypointRow(kps[i]))
  }

  /** The number of rows the copy loops write: `range(min(n, nf))`. */
  function RowCount(n: nat, nf: int): (r: nat)
    ensures r <= n && r as int <= if nf < 0 then 0 else nf
  {
    RangeLength(Min(n, nf))
  }

  /**
   * The iterations of `for _ in range(min(n, nf))`, or None when that
   * raises TypeError. Python's `min` returns its first argument `n` unless
   * `nf` is smaller; `range` then accepts an integer only. So an integer
   * `nf` gives `min(n, nf)` iterations (none when negative), a float at
   * least `n` gives `n`, and a float below `n` or a value that is no
   * number raises.
   */
  function CopyCount(n: nat, nf: Param): (r: Option<nat>)
    ensures r.None? <==> !(nf.PInt? || (nf.PReal? && n as real <= nf.r))
    ensures r.Some? ==> r.value <= n
    ensures r.Some? && nf.PInt? ==> r.value as int <= if nf.i < 0 then 0 else nf.i
    ensures r.Some? && r.value < n ==> nf.PInt? && r.value as int == if nf.i < 0 then 0 else nf.i
  {
    match nf
    case PInt(i) => Some(RowCount(n, i))
    case PReal(x) => if n as real <= x then Some(n) else None
    case _ => None
  }

  /**
   * The body of the `try` in the main function, on the state of the ports:
   * a failure anywhere leaves what was written so far. After the image is
   * drawn and marked valid, the descriptor rows are copied and marked
   * valid, then the keypoint rows; a missing descriptor matrix or a
   * loop count that `range(min(...))` refuses stops before that copy, and
   * a copy past the end of a buffer stops before that buffer is marked
   * valid.
   */
  function SiftBody(s: map<PortKey, PortState>, p: MainPorts, cv: Cv, params: seq<Param>): map<PortKey, PortState>
    requires |params| == MainParamCount && AllFound(p, s)
  {
    var input, mask := s[p.input].rows, s[p.mask].rows;
    match cv.detect(params[PortInNrFeatures..PortInSigma + 1], input, mask)
    case None => s
    case Some(d) =>
      match cv.draw(input, d.keypoints, s[p.image].rows)
      case None => s
      case Some(drawn) =>
        if |drawn| != |s[p.image].rows| then s
        else
          CopyStage(SetValid(ReplaceRows(s, p.image, drawn), p.image), p, cv, d, params[PortInNrFeatures])
  }

  /** After the image is drawn: the descriptor copy, then the keypoint copy, each stopping the run when it raises. */
  function CopyStage(s: map<PortKey, PortState>, p: MainPorts, cv: Cv, d: Detection, nfParam: Param): map<PortKey, PortState>
    requires p.descriptors in s && p.keypoints in s
  {
    if d.descriptors.None? then s
    else
      var des := d.descriptors.value;
      match CopyCount(|des|, nfParam)
      case None => s
      case Some(nDes) =>
        var s1 := WriteRows(s, p.descriptors, des, nDes);
        if nDes > |s[p.descriptors].rows| then s1
        else KeypointStage(SetValid(s1, p.descriptors), p, KeypointRows(cv, d.keypoints), nfParam)
  }

  /** The keypoint copy, and the keypoint output marked valid when it did not raise. */
  function KeypointStage(s: map<PortKey, PortState>, p: MainPorts, rows: seq<Row>, nfParam: Param): map<PortKey, PortState>
    requires p.keypoints in s
  {
    match CopyCount(|rows|, nfParam)
    case None => s
    case Some(count) =>
      var s1 := WriteRows(s, p.keypoints, rows, count);
      if count > |s[p.keypoints].rows| then s1 else SetValid(s1, p.keypoints)
  }

  /** The return value of the main function (or the exception it raises) and the ports' state after it. */
  datatype MainOutcome = MainOutcome(result: Result<bool>, after: map<PortKey, PortState>)

  function MainSpec(s: map<PortKey, PortState>, defaultWave: Param, cv: Cv, params: seq<Param>): MainOutcome
  {
    if |params| != MainParamCount then MainOutcome(Success(false), s)
    else
      var p := MainPortsOf(params, defaultWave);
      if !AllFound(p, s) then MainOutcome(Failure(PortNotFound), s)
      else if !s[p.input].valid then MainOutcome(Success(false), s)
      else MainOutcome(Success(true), SiftBody(s, p, cv, params))
  }

  /** `main_func(param_list)` on the port store. */
  method MainFunc(store: PortStore, cv: Cv, params: seq<Param>) returns (r: Result<bool>)
    requires store.Separate()
    modifies store.Footprint()
    ensures r == MainSpec(old(store.Snapshot()), store.defaultWave, cv, params).result
    ensures store.Snapshot() == MainSpec(old(store.Snapshot()), store.defaultWave, cv, params).after
  {
    if |params| != MainParamCount {
      return Success(false);
    }
    var p := MainPortsOf(params, store.defaultWave);
    if !(p.input in store.ports && p.mask in store.ports && p.keypoints in store.ports
         && p.descriptors in store.ports && p.image in store.ports) {
      return Failure(PortNotFound);
    }
    if !store.ports[p.input].valid {
      return Success(false);
    }
    RunSift(store, p, cv, params);
    return Success(true);
  }

  /** The `try` block of the main function. */
  method RunSift(store: PortStore, p: MainPorts, cv: Cv, params: seq<Param>)
    requires store.Separate() && |params| == MainParamCount
    requires p.input in store.ports && p.mask in store.ports && p.keypoints in store.ports
    requires p.descriptors in store.ports && p.image in store.ports
    modifies store.Footprint()
    ensures store.Snapshot() == SiftBody(old(store.Snapshot()), p, cv, params)
  {
    var input, mask := store.ports[p.input].arr[..], store.ports[p.mask].arr[..];
    var detection := cv.detect(params[PortInNrFeatures..PortInSigma + 1], input, mask);
    if detection.None? {
      return;
    }
    var d := detection.value;
    var drawn := cv.draw(input, d.keypoints, store.ports[p.image].arr[..]);
    if drawn.None? || |drawn.value| != store.ports[p.image].arr.Length {
      return;
    }
    ReplacePortRows(store, p.image, drawn.value);
    SetPortValid(store, p.image);
    RunCopies(store, p, cv, d, params[PortInNrFeatures]);
  }

  /** The descriptor copy and the keypoint copy of the `try` block. */
  method RunCopies(store: PortStore, p: MainPorts, cv: Cv, d: Detection, nfParam: Param)
    requires store.Separate() && p.descriptors in store.ports && p.keypoints in store.ports
    modifies store.Footprint()
    ensures store.Snapshot() == CopyStage(old(store.Snapshot()), p, cv, d, nfParam)
  {
    if d.descriptors.None? {
      return;
    }
    var des := d.descriptors.value;
    var count := CopyCount(|des|, nfParam);
    if count.None? {
      return;
    }
    var ok := WritePortRows(store, p.descriptors, des, count.value);
    if !ok {
      return;
    }
    SetPortValid(store, p.descriptors);
    RunKeypoints(store, p, KeypointRows(cv, d.keypoints), nfParam);
  }

  /** The keypoint copy of the `try` block. */
  method RunKeypoints(store: PortStore, p: MainPorts, rows: seq<Row>, nfParam: Param)
    requires store.Separate() && p.keypoints in store.ports
    modifies store.Footprint()
    ensures store.Snapshot() == KeypointStage(old(store.Snapshot()), p, rows, nfParam)
  {
    var count := CopyCount(|rows|, nfParam);
    if count.None? {
      return;
    }
    var ok := WritePortRows(store, p.keypoints, rows, count.value);
    if ok {
      SetPortValid(store, p.keypoints);
    }
  }

  // ---------------------------------------------------------------------------
  // Properties of the main function

  /**
   * The parameter list `do_sift_job` registers passes the length check of
   * the main function, which reads the input at the job's wave offset, the
   * mask (or the input again when there is none) and the three outputs
   * under the names the builder declared.
   */
  lemma SiftJobFeedsMain(h: Helpers, c: SiftConfig, defaultWave: Param)
    ensures |SiftJob(h, c).descriptor.mainFuncParam| == MainParamCount
    ensures var d, names := SiftJob(h, c).descriptor, SiftJob(h, c).names;
      var p := MainPortsOf(d.mainFuncParam, defaultWave);
      && p.input == PortKey(PStr(d.inputPorts[0]), PInt(c.waveOffset))
      && (c.maskPortName.None? ==> p.mask == p.input)
      && (c.maskPortName.Some? ==> p.mask == PortKey(PStr(h.nameLvl(c.maskPortName.value, c.level)), PInt(c.waveOffset)))
      && p.keypoints == PortKey(PStr(d.outputPorts[0].name), defaultWave)
      && p.descriptors == PortKey(PStr(d.outputPorts[1].name), defaultWave)
      && p.image == PortKey(PStr(d.outputPorts[2].name), defaultWave)
      && d.mainFuncParam[PortInNrFeatures] == PInt(c.numberFeatures)
  {
  }

  /**
   * The main function answers False for a parameter list of the wrong
   * length or an invalid input port, raises when a port is missing, and
   * otherwise answers True, whatever happens inside the detector; only in
   * that last case does any port change.
   */
  lemma MainResult(s: map<PortKey, PortState>, defaultWave: Param, cv: Cv, params: seq<Param>)
    ensures var o := MainSpec(s, defaultWave, cv, params);
      && (o.result == Failure(PortNotFound) <==>
            |params| == MainParamCount && !AllFound(MainPortsOf(params, defaultWave), s))
      && (o.result == Success(true) <==>
            |params| == MainParamCount && AllFound(MainPortsOf(params, defaultWave), s)
            && s[MainPortsOf(params, defaultWave).input].valid)
      && (o.result.Success? || o.result == Failure(PortNotFound))
      && (o.result != Success(true) ==> o.after == s)
  {
  }

  /** `k` is one of the three outputs. */
  predicate IsOutput(p: MainPorts, k: PortKey)
  {
    k == p.image || k == p.descriptors || k == p.keypoints
  }

  /**
   * From `s` to `r` every port is kept, only outputs change, no validity
   * flag is cleared and no buffer changes length.
   */
  predicate OutputsOnly(s: map<PortKey, PortState>, r: map<PortKey, PortState>, p: MainPorts)
  {
    && r.Keys == s.Keys
    && (forall k :: k in s && !IsOutput(p, k) ==> r[k] == s[k])
    && (forall k :: k in s && s[k].valid ==> r[k].valid)
    && (forall k :: k in s ==> |r[k].rows| == |s[k].rows|)
  }

  lemma OutputsOnlyTrans(s: map<PortKey, PortState>, t: map<PortKey, PortState>, u: map<PortKey, PortState>, p: MainPorts)
    requires OutputsOnly(s, t, p) && OutputsOnly(t, u, p)
    ensures OutputsOnly(s, u, p)
  {
  }

  lemma SetValidStep(s: map<PortKey, PortState>, key: PortKey, p: MainPorts)
    requires key in s && IsOutput(p, key)
    ensures OutputsOnly(s, SetValid(s, key), p)
  {
  }

  lemma ImageStep(s: map<PortKey, PortState>, key: PortKey, rows: seq<Row>, p: MainPorts)
    requires key in s && IsOutput(p, key) && |rows| == |s[key].rows|
    ensures OutputsOnly(s, SetValid(ReplaceRows(s, key, rows), key), p)
  {
  }

  lemma WriteRowsStep(s: map<PortKey, PortState>, key: PortKey, src: seq<Row>, count: nat, p: MainPorts)
    requires key in s && IsOutput(p, key) && count <= |src|
    ensures OutputsOnly(s, WriteRows(s, key, src, count), p)
  {
  }

  /**
   * The run changes no port but the three outputs, keeps every port, and
   * never clears a validity flag.
   */
  lemma SiftBodyFrame(s: map<PortKey, PortState>, p: MainPorts, cv: Cv, params: seq<Param>)
    requires |params| == MainParamCount && AllFound(p, s)
    ensures OutputsOnly(s, SiftBody(s, p, cv, params), p)
  {
    var input, mask := s[p.input].rows, s[p.mask].rows;
    var det := cv.detect(params[PortInNrFeatures..PortInSigma + 1], input, mask);
    if det.Some? {
      var d := det.value;
      var drawn := cv.draw(input, d.keypoints, s[p.image].rows);
      if drawn.Some? && |drawn.value| == |s[p.image].rows| {
        var s1 := SetValid(ReplaceRows(s, p.image, drawn.value), p.image);
        ImageStep(s, p.image, drawn.value, p);
        CopyStageFrame(s1, p, cv, d, params[PortInNrFeatures]);
        OutputsOnlyTrans(s, s1, CopyStage(s1, p, cv, d, params[PortInNrFeatures]), p);
        assert SiftBody(s, p, cv, params) == CopyStage(s1, p, cv, d, params[PortInNrFeatures]);
      } else {
        assert SiftBody(s, p, cv, params) == s;
      }
    } else {
      assert SiftBody(s, p, cv, params) == s;
    }
  }

  lemma KeypointStageFrame(s: map<PortKey, PortState>, p: MainPorts, rows: seq<Row>, nfParam: Param)
    requires p.keypoints in s
    ensures OutputsOnly(s, KeypointStage(s, p, rows, nfParam), p)
  {
    var count := CopyCount(|rows|, nfParam);
    if count.Some? {
      var s1 := WriteRows(s, p.keypoints, rows, count.value);
      WriteRowsStep(s, p.keypoints, rows, count.value, p);
      if count.value <= |s[p.keypoints].rows| {
        SetValidStep(s1, p.keypoints, p);
        OutputsOnlyTrans(s, s1, SetValid(s1, p.keypoints), p);
      }
    }
  }

  lemma CopyStageFrame(s: map<PortKey, PortState>, p: MainPorts, cv: Cv, d: Detection, nfParam: Param)
    requires p.descriptors in s && p.keypoints in s
    ensures OutputsOnly(s, CopyStage(s, p, cv, d, nfParam), p)
  {
    if d.descriptors.Some? {
      var des := d.descriptors.value;
      var count := CopyCount(|des|, nfParam);
      if count.Some? {
        var nDes := count.value;
        var s1 := WriteRows(s, p.descriptors, des, nDes);
        WriteRowsStep(s, p.descriptors, des, nDes, p);
        if nDes <= |s[p.descriptors].rows| {
          var s2 := SetValid(s1, p.descriptors);
          SetValidStep(s1, p.descriptors, p);
          OutputsOnlyTrans(s, s1, s2, p);
          var rows := KeypointRows(cv, d.keypoints);
          KeypointStageFrame(s2, p, rows, nfParam);
          OutputsOnlyTrans(s, s2, KeypointStage(s2, p, rows, nfParam), p);
        }
      }
    }
  }

  /** The outputs are not drawn apart. */
  predicate DistinctOutputs(p: MainPorts)
  {
    p.image != p.descriptors && p.image != p.keypoints && p.descriptors != p.keypoints
  }

  /** When the detector raises, nothing changes. */
  lemma NoDetectionNoChange(s: map<PortKey, PortState>, p: MainPorts, cv: Cv, params: seq<Param>)
    requires |params| == MainParamCount && AllFound(p, s)
    requires cv.detect(params[PortInNrFeatures..PortInSigma + 1], s[p.input].rows, s[p.mask].rows).None?
    ensures SiftBody(s, p, cv, params) == s
  {
  }

  /** Once detection and drawing succeed, the image output holds the drawing and is valid. */
  lemma ImageDrawn(s: map<PortKey, PortState>, p: MainPorts, cv: Cv, params: seq<Param>, d: Detection, drawn: seq<Row>)
    requires |params| == MainParamCount && AllFound(p, s) && DistinctOutputs(p)
    requires cv.detect(params[PortInNrFeatures..PortInSigma + 1], s[p.input].rows, s[p.mask].rows) == Some(d)
    requires cv.draw(s[p.input].rows, d.keypoints, s[p.image].rows) == Some(drawn)
    requires |drawn| == |s[p.image].rows|
    ensures SiftBody(s, p, cv, params)[p.image] == PortState(true, drawn)
  {
  }

  /**
   * With a descriptor matrix and a feature count for which the loop runs
   * `n` times (`n` is `min(len(des), nf)`, for an integer or a float at
   * least `len(des)`) and fits the descriptor buffer, the first `n` rows
   * are the descriptors, the others are unchanged, and the output is valid.
   */
  lemma DescriptorsCopied(s: map<PortKey, PortState>, p: MainPorts, cv: Cv, params: seq<Param>,
                          d: Detection, drawn: seq<Row>, des: seq<Row>, n: nat)
    requires |params| == MainParamCount && AllFound(p, s) && DistinctOutputs(p)
    requires cv.detect(params[PortInNrFeatures..PortInSigma + 1], s[p.input].rows, s[p.mask].rows) == Some(d)
    requires cv.draw(s[p.input].rows, d.keypoints, s[p.image].rows) == Some(drawn)
    requires |drawn| == |s[p.image].rows|
    requires d.descriptors == Some(des) && CopyCount(|des|, params[PortInNrFeatures]) == Some(n)
    requires n <= |s[p.descriptors].rows|
    ensures var r := SiftBody(s, p, cv, params)[p.descriptors];
      && r.valid
      && |r.rows| == |s[p.descriptors].rows|
      && (forall i :: 0 <= i < n ==> r.rows[i] == des[i])
      && (forall i :: n <= i < |r.rows| ==> r.rows[i] == s[p.descriptors].rows[i])
  {
  }

  /**
   * When the descriptors were copied and the keypoint loop runs `n` times
   * (`min(len(kp), nf)`) within the keypoint buffer, the first `n` rows
   * are the keypoints as arrays, the others are unchanged, and the output
   * is valid.
   */
  lemma KeypointsCopied(s: map<PortKey, PortState>, p: MainPorts, cv: Cv, params: seq<Param>,
                        d: Detection, drawn: seq<Row>, des: seq<Row>, nDes: nat, n: nat)
    requires |params| == MainParamCount && AllFound(p, s) && DistinctOutputs(p)
    requires cv.detect(params[PortInNrFeatures..PortInSigma + 1], s[p.input].rows, s[p.mask].rows) == Some(d)
    requires cv.draw(s[p.input].rows, d.keypoints, s[p.image].rows) == Some(drawn)
    requires |drawn| == |s[p.image].rows|
    requires d.descriptors == Some(des) && CopyCount(|des|, params[PortInNrFeatures]) == Some(nDes)
    requires nDes <= |s[p.descriptors].rows|
    requires CopyCount(|d.keypoints|, params[PortInNrFeatures]) == Some(n)
    requires n <= |s[p.keypoints].rows|
    ensures var r := SiftBody(s, p, cv, params)[p.keypoints];
      && r.valid
      && |r.rows| == |s[p.keypoints].rows|
      && (forall i :: 0 <= i < n ==> r.rows[i] == cv.keypointRow(d.keypoints[i]))
      && (forall i :: n <= i < |r.rows| ==> r.rows[i] == s[p.keypoints].rows[i])
  {
  }

  /**
   * The outputs are marked valid in order: keypoints only after the
   * descriptors, the descriptors only after the image, the image only when
   * detection and drawing succeeded. An output is marked valid only when
   * its loop ran (`range(min(...))` did not raise) and its copy fit the
   * buffer.
   */
  lemma ValidityChain(s: map<PortKey, PortState>, p: MainPorts, cv: Cv, params: seq<Param>)
    requires |params| == MainParamCount && AllFound(p, s) && DistinctOutputs(p)
    requires !s[p.image].valid && !s[p.descriptors].valid && !s[p.keypoints].valid
    ensures var r := SiftBody(s, p, cv, params);
      && (r[p.keypoints].valid ==> r[p.descriptors].valid)
      && (r[p.descriptors].valid ==> r[p.image].valid)
    ensures var r := SiftBody(s, p, cv, params);
      var det := cv.detect(params[PortInNrFeatures..PortInSigma + 1], s[p.input].rows, s[p.mask].rows);
      r[p.image].valid ==>
        && det.Some?
        && var drawn := cv.draw(s[p.input].rows, det.value.keypoints, s[p.image].rows);
        && drawn.Some? && |drawn.value| == |s[p.image].rows|
    ensures var r := SiftBody(s, p, cv, params);
      var det := cv.detect(params[PortInNrFeatures..PortInSigma + 1], s[p.input].rows, s[p.mask].rows);
      r[p.descriptors].valid ==>
        && det.Some? && det.value.descriptors.Some?
        && var count := CopyCount(|det.value.descriptors.value|, params[PortInNrFeatures]);
        && count.Some? && count.value <= |s[p.descriptors].rows|
    ensures var r := SiftBody(s, p, cv, params);
      var det := cv.detect(params[PortInNrFeatures..PortInSigma + 1], s[p.input].rows, s[p.mask].rows);
      r[p.keypoints].valid ==>
        && det.Some?
        && var count := CopyCount(|det.value.keypoints|, params[PortInNrFeatures]);
        && count.Some? && count.value <= |s[p.keypoints].rows|
  {
  }

  /**
   * Whatever happens, no row of the descriptor or keypoint buffer at or
   * beyond the feature count is written, for an integer count and for a
   * float one; with a feature count that is no number, those buffers are
   * not written at all.
   */
  lemma RowsBeyondCountUnchanged(s: map<PortKey, PortState>, p: MainPorts, cv: Cv, params: seq<Param>)
    requires |params| == MainParamCount && AllFound(p, s) && DistinctOutputs(p)
    ensures var r, nf := SiftBody(s, p, cv, params), params[PortInNrFeatures];
      nf.PInt? ==>
        && (forall i :: 0 <= i < |s[p.descriptors].rows| && i >= nf.i ==>
              r[p.descriptors].rows[i] == s[p.descriptors].rows[i])
        && (forall i :: 0 <= i < |s[p.keypoints].rows| && i >= nf.i ==>
              r[p.keypoints].rows[i] == s[p.keypoints].rows[i])
    ensures var r, nf := SiftBody(s, p, cv, params), params[PortInNrFeatures];
      nf.PReal? ==>
        && (forall i :: 0 <= i < |s[p.descriptors].rows| && i as real >= nf.r ==>
              r[p.descriptors].rows[i] == s[p.descriptors].rows[i])
        && (forall i :: 0 <= i < |s[p.keypoints].rows| && i as real >= nf.r ==>
              r[p.keypoints].rows[i] == s[p.keypoints].rows[i])
    ensures var r, nf := SiftBody(s, p, cv, params), params[PortInNrFeatures];
      (nf.PStr? || nf.PNone?) ==>
        r[p.descriptors].rows == s[p.descriptors].rows && r[p.keypoints].rows == s[p.keypoints].rows
  {
  }
}
