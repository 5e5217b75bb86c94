/**
  The orchestrator, `improveDecompiledCode`: ask for the output folder, list
  the functions, let the user pick one, decompile it, have the endpoint improve
  it, strip the fence lines, save the result and show it. The dialogs and the
  random number for the default name are inputs; the file system and the
  endpoint's record of requests are what the run changes.
*/
module Pipeline {
  import opened Wrappers
  import opened Text
  import opened Sanitizer
  import opened Inference
  import opened Functions
  import opened Storage

  /** `getDecompiledCode(function)`: the C text when decompilation finished, nothing otherwise. */
  function GetDecompiledCode(r: DecompileResult): (code: Option<string>)
    ensures code.Some? <==> r.Decompiled?
    ensures code.Some? ==> code.value == r.c
  {
    match r
    case Decompiled(c) => Some(c)
    case Incomplete => None
  }

  /** `getFunctionAt` on the parsed address: the first function whose entry has that address text. */
  function FunctionAt(program: seq<ProgramFunction>, address: string): (r: Option<ProgramFunction>)
    ensures r.Some? ==> r.value in program && r.value.entry == address
    ensures r.None? <==> forall f :: f in program ==> f.entry != address
  {
    if program == [] then None
    else if program[0].entry == address then Some(program[0])
    else FunctionAt(program[1..], address)
  }

  /** `answer if answer else default`: an empty answer falls back to the default. */
  function OrDefault(answer: string, default: string): (r: string)
    ensures answer != "" ==> r == answer
    ensures answer == "" ==> r == default
    ensures r == "" <==> answer == "" && default == ""
  {
    if answer == "" then default else answer
  }

  /**
    What the user and the random source answer during one run: the folder
    typed in, the choice picked, whether comments are wanted, the number drawn
    for the default name, and the file name typed in. An empty string stands
    for an empty or dismissed dialog.
  */
  datatype Answers = Answers(
    folder: string,
    selection: string,
    addComments: bool,
    nameDraw: NineDigit,
    fileName: string)

  /** Where a run ends. The first six stop before the endpoint is called. */
  datatype Exit =
    | NoFunctions
    | NoSelection
    | MalformedChoice     // the choice did not split into exactly two parts (the unpacking raises)
    | FunctionNotFound
    | DecompileFailed
    | NoDecompiledText
    | NonTextReply        // the reply's content is not a string, so stripping it raises
    | WriteFailed         // the file could not be written (the write raises)
    | Displayed

  /**
    What one run did: where it ended, the folder it used, the choices it
    offered, the path it wrote and the code it showed.
  */
  datatype Run = Run(
    exit: Exit,
    outputFolder: string,
    choices: seq<string>,
    savedTo: Option<string>,
    displayed: Option<string>)

  /** The gates before the endpoint is called. */
  datatype Stage = Stopped(exit: Exit) | Ready(functionName: string, code: string)

  /**
    The run gets to the endpoint only when the program has functions, a
    choice was made, it splits into a name and an address, a function is at
    that address, and its decompilation finished with some text.
  */
  ghost function Preflight(program: seq<ProgramFunction>, selection: string): (stage: Stage)
    ensures stage.Ready? ==>
      && program != [] && selection != ""
      && ParseChoice(selection).Some?
      && stage.functionName == ParseChoice(selection).value.name
      && FunctionAt(program, ParseChoice(selection).value.address).Some?
      && FunctionAt(program, ParseChoice(selection).value.address).value.decompilation == Decompiled(stage.code)
      && stage.code != ""
    ensures
      && program != [] && selection != ""
      && ParseChoice(selection).Some?
      && FunctionAt(program, ParseChoice(selection).value.address).Some?
      && FunctionAt(program, ParseChoice(selection).value.address).value.decompilation.Decompiled?
      && FunctionAt(program, ParseChoice(selection).value.address).value.decompilation.c != ""
      ==> stage.Ready?
    ensures stage.Stopped? ==> stage.exit != NonTextReply && stage.exit != WriteFailed && stage.exit != Displayed
  {
    if program == [] then Stopped(NoFunctions)
    else if selection == "" then Stopped(NoSelection)
    else match ParseChoice(selection)
      case None => Stopped(MalformedChoice)
      case Some(chosen) =>
        match FunctionAt(program, chosen.address)
        case None => Stopped(FunctionNotFound)
        case Some(resolved) =>
          match GetDecompiledCode(resolved.decompilation)
          case None => Stopped(DecompileFailed)
          case Some(code) => if code == "" then Stopped(NoDecompiledText) else Ready(chosen.name, code)
  }

  /**
    The part of `improveDecompiledCode()` before the endpoint: list and sort
    the functions, offer them as choices, split the selected choice, find the
    function at its address and decompile it. The stage says where this
    stopped, or the name and code the run goes on with.
  */
  method SelectFunction(program: seq<ProgramFunction>, selection: string) returns (choices: seq<string>, stage: Stage)
    ensures stage == Preflight(program, selection)
    ensures program == [] ==> choices == []
    ensures program != [] ==>
      && |choices| == |program|
      && forall i :: 0 <= i < |program| ==> choices[i] == FormatChoice(SortByName(Descriptors(program))[i])
  {
    var functionList := GetSortedFunctions(program);
    if functionList == [] {
      assert Preflight(program, selection) == Stopped(NoFunctions);
      return [], Stopped(NoFunctions);
    }
    choices := BuildChoices(functionList);

    var selectedChoice := selection;
    if selectedChoice == "" {
      assert Preflight(program, selection) == Stopped(NoSelection);
      return choices, Stopped(NoSelection);
    }
    var parsed := ParseChoice(selectedChoice);
    if parsed.None? {
      assert Preflight(program, selection) == Stopped(MalformedChoice);
      return choices, Stopped(MalformedChoice);
    }
    var functionName, functionAddress := parsed.value.name, parsed.value.address;

    var resolved := FunctionAt(program, functionAddress);
    if resolved.None? {
      assert Preflight(program, selection) == Stopped(FunctionNotFound);
      return choices, Stopped(FunctionNotFound);
    }
    var decompiledCode := GetDecompiledCode(resolved.value.decompilation);
    if decompiledCode.None? {
      assert Preflight(program, selection) == Stopped(DecompileFailed);
      return choices, Stopped(DecompileFailed);
    }
    if decompiledCode.value == "" {
      assert Preflight(program, selection) == Stopped(NoDecompiledText);
      return choices, Stopped(NoDecompiledText);
    }
    stage := Ready(functionName, decompiledCode.value);
  }

  /**
    The part of `improveDecompiledCode()` after the reply: strip the first and
    last line of the reply's text, save it under the typed name (or else the
    default one) and show it. A reply whose content is not text stops the run
    before anything is written.
  */
  method SaveAndDisplay(fs: FileSystem, outputFolder: string, functionName: string, answers: Answers, improved: Json)
    returns (exit: Exit, savedTo: Option<string>, displayed: Option<string>)
    requires fs.Valid()
    modifies fs
    ensures fs.Valid()
    ensures old(outputFolder in fs.files) ==> exit != Displayed
    ensures !improved.JString? ==>
      exit == NonTextReply && savedTo == None && displayed == None
      && fs.files == old(fs.files) && fs.dirs == old(fs.dirs)
    ensures improved.JString? ==>
      var clean := RemoveMarkers(improved.s);
      var fileName := OrDefault(answers.fileName, CandidateFileName(functionName, answers.nameDraw));
      var path := PathJoin(outputFolder, fileName);
      && (exit == Displayed || exit == WriteFailed)
      && fs.dirs == (if old(fs.Exists(outputFolder)) then old(fs.dirs) else old(fs.dirs) + {outputFolder})
      && (exit == Displayed <==> outputFolder in fs.dirs && path !in fs.dirs)
      && (exit == Displayed ==>
            savedTo == Some(path) && displayed == Some(clean)
            && fs.files == old(fs.files)[path := clean])
      && (exit == WriteFailed ==>
            savedTo == None && displayed == None && fs.files == old(fs.files))
  {
    if !improved.JString? {
      return NonTextReply, None, None;
    }
    var improvedCode := RemoveMarkers(improved.s);

    var defaultName := CandidateFileName(functionName, answers.nameDraw);
    var fileName := OrDefault(answers.fileName, defaultName);
    var written := fs.SaveImprovedCode(outputFolder, fileName, improvedCode);
    if !written {
      return WriteFailed, None, None;
    }
    return Displayed, Some(PathJoin(outputFolder, fileName)), Some(improvedCode);
  }

  /**
    `improveDecompiledCode()` with `endpoint`, on the file system `fs`. It
    posts one request exactly when every gate passed, and nothing on disk
    changes before that. After the request, a reply whose content is text is
    stripped of its first and last line; that same text is written to the
    chosen path (the typed name, or else the default name) and is what is
    displayed, unless the write cannot be done.
  */
  method ImproveDecompiledCode(fs: FileSystem, endpoint: ChatEndpoint, program: seq<ProgramFunction>, answers: Answers)
    returns (run: Run)
    requires fs.Valid()
    modifies fs, endpoint
    ensures fs.Valid()
    ensures old(run.outputFolder in fs.files) ==> run.exit != Displayed
    ensures run.outputFolder == OrDefault(answers.folder, DefaultOutputFolder)
    ensures program == [] ==> run.choices == []
    ensures program != [] ==>
      && |run.choices| == |program|
      && forall i :: 0 <= i < |program| ==> run.choices[i] == FormatChoice(SortByName(Descriptors(program))[i])
    ensures endpoint.sent == old(endpoint.sent) +
      (if Preflight(program, answers.selection).Ready?
       then [BuildRequest(Preflight(program, answers.selection).code, answers.addComments)]
       else [])
    ensures Preflight(program, answers.selection).Stopped? ==>
      && run.exit == Preflight(program, answers.selection).exit
      && run.savedTo == None && run.displayed == None
      && fs.files == old(fs.files) && fs.dirs == old(fs.dirs)
    ensures Preflight(program, answers.selection).Ready? ==>
      var stage := Preflight(program, answers.selection);
      var reply := endpoint.answer(BuildRequest(stage.code, answers.addComments));
      var improved := ReplyContent(stage.code, reply);
      && (!improved.JString? ==>
            run.exit == NonTextReply && run.savedTo == None && run.displayed == None
            && fs.files == old(fs.files) && fs.dirs == old(fs.dirs))
      && (improved.JString? ==>
            var clean := RemoveMarkers(improved.s);
            var fileName := OrDefault(answers.fileName, CandidateFileName(stage.functionName, answers.nameDraw));
            var path := PathJoin(run.outputFolder, fileName);
            && (run.exit == Displayed || run.exit == WriteFailed)
            && fs.dirs == (if old(fs.Exists(run.outputFolder)) then old(fs.dirs) else old(fs.dirs) + {run.outputFolder})
            && (run.exit == Displayed <==> run.outputFolder in fs.dirs && path !in fs.dirs)
            && (run.exit == Displayed ==>
                  run.savedTo == Some(path) && run.displayed == Some(clean)
                  && fs.files == old(fs.files)[path := clean])
            && (run.exit == WriteFailed ==>
                  run.savedTo == None && run.displayed == None && fs.files == old(fs.files)))
  {
    var outputFolder := answers.folder;
    if outputFolder == "" {
      outputFolder := DefaultOutputFolder;
    }

    var choices, stage := SelectFunction(program, answers.selection);
    if stage.Stopped? {
      return Run(stage.exit, outputFolder, choices, None, None);
    }
    var functionName := stage.functionName;
    var decompiledCode := stage.code;

    var improved := SendToDeepSeekChat(decompiledCode, answers.addComments, endpoint);
    var exit, savedTo, displayed := SaveAndDisplay(fs, outputFolder, functionName, answers, improved);
    return Run(exit, outputFolder, choices, savedTo, displayed);
  }

  /**
    A reply that echoes the decompiled code between two fence lines gets the
    decompiled code itself saved and shown, when that code breaks lines only
    with `\n`.
  */
  lemma FencedEchoRestoresCode(code: string, open: string, close: string)
    requires OnlyNewlineBreaks(code)
    requires NoLineBreaks(open) && NoLineBreaks(close) && close != ""
    ensures var improved := ReplyContent(code, Response(200, Some(ChatCompletion(open + "\n" + code + "\n" + close))));
      improved.JString? && RemoveMarkers(improved.s) == code
  {
    CompletionReturned(code, open + "\n" + code + "\n" + close);
    RemoveMarkersFenced(open, code, close);
  }

  /**
    When the endpoint fails, the decompiled code itself goes on to be
    stripped: with two lines or more, the text saved is shorter than what
    was decompiled.
  */
  lemma FailedReplyStripsOriginal(code: string)
    requires |SplitLines(code)| >= 2
    ensures var improved := ReplyContent(code, TransportFault);
      improved == JString(code) && |RemoveMarkers(improved.s)| < |code|
  {
  }
}
