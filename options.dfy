/**
 * Options.__init__ of word2vec_optimized.py: the command-line flags are copied
 * into an options object, then the three run-mode flags load_data, resume and
 * interactive are reconciled.
 */
module RunOptions {
  import opened Results

  /** The command-line flags the options object is built from (interactive is tri-state). */
  datatype Flags = Flags(
    embeddingSize: int, trainData: string, numNegSamples: int, learningRate: real,
    epochsToTrain: int, concurrentSteps: int, batchSize: int, windowSize: int,
    minCount: int, subsample: real, savePath: string, evalData: string,
    interactive: Option<bool>, loadData: bool, resume: bool)

  /** The three settings that mode resolution decides. */
  datatype Mode = Mode(epochsToTrain: int, interactive: Option<bool>, loadData: bool)

  /**
   * The reconciliation rule: load_data without resume turns training off and
   * makes the interactive shell the default; resume implies load_data.
   */
  function ResolveMode(epochs: int, interactive: Option<bool>, loadData: bool, resume: bool): (m: Mode)
    ensures m.loadData <==> loadData || resume
    ensures loadData && !resume ==> m.epochsToTrain == 0
    ensures !loadData || resume ==> m.epochsToTrain == epochs
    ensures m.interactive == if loadData && !resume && interactive.None? then Some(true) else interactive
  {
    var m := Mode(epochs, interactive, loadData);
    var m := if loadData && !resume then
               m.(epochsToTrain := 0, interactive := if interactive.None? then Some(true) else interactive)
             else m;
    if resume then m.(loadData := true) else m
  }

  /** `if opts.interactive:` in main: an unset flag counts as false. */
  predicate StartsShell(interactive: Option<bool>) {
    interactive == Some(true)
  }

  /**
   * Resolving the already resolved settings again changes nothing: the rule
   * reaches its fixed point in one pass.
   */
  lemma ResolveModeIdempotent(epochs: int, interactive: Option<bool>, loadData: bool, resume: bool)
    ensures var m := ResolveMode(epochs, interactive, loadData, resume);
            ResolveMode(m.epochsToTrain, m.interactive, m.loadData, resume) == m
  {
  }

  /**
   * What main then does: training epochs run only when not loading or when
   * resuming, and a plain load opens the shell unless it was explicitly refused.
   */
  lemma ResolvedRunPlan(epochs: int, interactive: Option<bool>, loadData: bool, resume: bool)
    requires epochs > 0
    ensures var m := ResolveMode(epochs, interactive, loadData, resume);
            && (m.epochsToTrain > 0 <==> !loadData || resume)
            && (loadData && !resume ==> (StartsShell(m.interactive) <==> interactive != Some(false)))
            && (resume ==> m.loadData && m.interactive == interactive)
  {
    match interactive
    case None =>
    case Some(b) => assert StartsShell(interactive) <==> b;
  }

  class Options {
    var embDim: int
    var trainData: string
    var numSamples: int
    var learningRate: real
    var epochsToTrain: int
    var concurrentSteps: int
    var batchSize: int
    var windowSize: int
    var minCount: int
    var subsample: real
    var savePath: string
    var evalData: string
    var interactive: Option<bool>
    var loadData: bool
    var resume: bool

    /** The run-mode part of the options, as main reads it. */
    function RunMode(): Mode
      reads this
    {
      Mode(epochsToTrain, interactive, loadData)
    }

    /** Options(): every flag copied, then the mode flags reconciled in place. */
    constructor (flags: Flags)
      ensures RunMode() == ResolveMode(flags.epochsToTrain, flags.interactive, flags.loadData, flags.resume)
      ensures resume == flags.resume
      ensures embDim == flags.embeddingSize && trainData == flags.trainData
      ensures numSamples == flags.numNegSamples && learningRate == flags.learningRate
      ensures concurrentSteps == flags.concurrentSteps && batchSize == flags.batchSize
      ensures windowSize == flags.windowSize && minCount == flags.minCount
      ensures subsample == flags.subsample && savePath == flags.savePath && evalData == flags.evalData
    {
      embDim := flags.embeddingSize;
      trainData := flags.trainData;
      numSamples := flags.numNegSamples;
      learningRate := flags.learningRate;
      epochsToTrain := flags.epochsToTrain;
      concurrentSteps := flags.concurrentSteps;
      batchSize := flags.batchSize;
      windowSize := flags.windowSize;
      minCount := flags.minCount;
      subsample := flags.subsample;
      savePath := flags.savePath;
      evalData := flags.evalData;
      interactive := flags.interactive;
      loadData := flags.loadData;
      resume := flags.resume;
      new;
      if loadData && !resume {
        epochsToTrain := 0;
        if interactive.None? {
          interactive := Some(true);
        }
      }
      if resume {
        loadData := true;
      }
    }
  }
}
