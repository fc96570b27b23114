/**
 The tool table `_setup_tools` builds, the JSON-schema form of each tool's
 arguments, and the conversion to the function-calling format the chat
 endpoint takes.
 */
module Declarations {
  import opened Wrappers
  import opened Files
  import opened Tools

  /** One entry of a schema's `properties`: its name, JSON type and description. */
  datatype Property = Property(name: string, kind: string, description: string)

  /** An `input_schema`: `{"type": kind, "properties": ..., "required": ...}`,
      with the properties in declaration order. */
  datatype Schema = Schema(kind: string, properties: seq<Property>, required: seq<string>)

  /** The `Tool` record: name, description and `input_schema`. */
  datatype Tool = Tool(name: string, description: string, inputSchema: Schema)

  const ReadFileTool := Tool(
    "read_file",
    "Read the contents of a file at the specified path",
    Schema("object",
           [Property("path", "string", "The path to the file to read")],
           ["path"]))

  const ListFilesTool := Tool(
    "list_files",
    "List all files and directories in the specified path",
    Schema("object",
           [Property("path", "string", "The directory path to list (defaults to current directory)")],
           []))

  const EditFileTool := Tool(
    "edit_file",
    "Edit a file by replacing old_text with new_text. Creates the file if it doesn't exist.",
    Schema("object",
           [Property("path", "string", "The path to the file to edit"),
            Property("old_text", "string", "The text to search for and replace (leave empty to create new file)"),
            Property("new_text", "string", "The text to replace old_text with")],
           ["path", "new_text"]))

  /** `_setup_tools`: the three tools, in the order the model is shown them. */
  function SetupTools(): (tools: seq<Tool>)
    ensures |tools| == 3
    ensures forall i, j :: 0 <= i < j < |tools| ==> tools[i].name != tools[j].name
    ensures forall t :: t in tools ==> t.name in Dispatched
    ensures forall n :: n in Dispatched ==> exists t :: t in tools && t.name == n
  {
    var tools := [ReadFileTool, ListFilesTool, EditFileTool];
    assert tools[0].name == "read_file" && tools[1].name == "list_files" && tools[2].name == "edit_file";
    tools
  }

  function PropertyNames(s: Schema): set<string> {
    set p | p in s.properties :: p.name
  }

  /** The well-formedness the schemas keep: property names are distinct, every
      required name is a property, and every property is a string. */
  predicate WellFormedSchema(s: Schema) {
    && s.kind == "object"
    && (forall i, j :: 0 <= i < j < |s.properties| ==> s.properties[i].name != s.properties[j].name)
    && (forall k :: k in s.required ==> k in PropertyNames(s))
    && (forall p :: p in s.properties ==> p.kind == "string")
  }

  lemma SchemasWellFormed()
    ensures forall t :: t in SetupTools() ==> WellFormedSchema(t.inputSchema)
  {
    assert "path" in PropertyNames(ReadFileTool.inputSchema) by {
      assert ReadFileTool.inputSchema.properties[0].name == "path";
    }
    assert "path" in PropertyNames(EditFileTool.inputSchema) && "new_text" in PropertyNames(EditFileTool.inputSchema) by {
      assert EditFileTool.inputSchema.properties[0].name == "path";
      assert EditFileTool.inputSchema.properties[2].name == "new_text";
    }
  }

  // ---------------------------------------------------------------------
  // How the dispatcher treats the declared arguments

  /** The first required argument, in declaration order, the call lacks:
      the key whose lookup raises first. */
  function FirstMissing(required: seq<string>, args: map<string, string>): (r: Option<string>)
    ensures r.Some? ==> r.value in required && r.value !in args
    ensures r.None? ==> forall k :: k in required ==> k in args
    ensures r.Some? ==>
      exists i :: 0 <= i < |required| && required[i] == r.value && forall j :: 0 <= j < i ==> required[j] in args
    decreases |required|
  {
    if required == [] then None
    else if required[0] !in args then Some(required[0])
    else FirstMissing(required[1..], args)
  }

  /** A call to a declared tool that lacks a required argument is answered
      with the error for the first one missing, and changes nothing. */
  lemma MissingRequired(fs: FileSystem, t: Tool, args: map<string, string>)
    requires t in SetupTools()
    requires FirstMissing(t.inputSchema.required, args).Some?
    ensures Exec(fs, Some(t.name), args) ==
      Effect(MissingArgument(t.name, FirstMissing(t.inputSchema.required, args).value), fs)
  {
    if t == EditFileTool {
      var req := t.inputSchema.required;
      assert req[1..] == ["new_text"];
    }
  }

  /** A call that has every required argument is not answered with a
      missing-argument error: the tool itself runs. */
  lemma RequiredSuffice(fs: FileSystem, t: Tool, args: map<string, string>)
    requires t in SetupTools()
    requires FirstMissing(t.inputSchema.required, args).None?
    ensures t == ReadFileTool ==> Exec(fs, Some(t.name), args) == Effect(ReadFile(fs, args["path"]), fs)
    ensures t == ListFilesTool ==> Exec(fs, Some(t.name), args) == Effect(Listing(fs, ArgumentOr(args, "path", ".")), fs)
    ensures t == EditFileTool ==>
      Exec(fs, Some(t.name), args) == Edit(fs, args["path"], ArgumentOr(args, "old_text", ""), args["new_text"])
  {
    assert "path" in ReadFileTool.inputSchema.required;
    assert "path" in EditFileTool.inputSchema.required && "new_text" in EditFileTool.inputSchema.required;
  }

  /** Arguments a tool does not declare are ignored. */
  lemma UndeclaredIgnored(fs: FileSystem, t: Tool, args: map<string, string>, args': map<string, string>)
    requires t in SetupTools()
    requires forall k :: k in PropertyNames(t.inputSchema) ==>
      (k in args <==> k in args') && (k in args ==> args[k] == args'[k])
    ensures Exec(fs, Some(t.name), args) == Exec(fs, Some(t.name), args')
  {
    assert "path" in PropertyNames(t.inputSchema) by {
      assert t.inputSchema.properties[0].name == "path";
    }
    if t == EditFileTool {
      assert "old_text" in PropertyNames(t.inputSchema) by {
        assert t.inputSchema.properties[1].name == "old_text";
      }
      assert "new_text" in PropertyNames(t.inputSchema) by {
        assert t.inputSchema.properties[2].name == "new_text";
      }
    }
  }

  // ---------------------------------------------------------------------
  // The function-calling format

  /** `{"name": ..., "description": ..., "parameters": ...}`. */
  datatype FunctionSpec = FunctionSpec(name: string, description: string, parameters: Schema)

  /** `{"type": kind, "function": fn}`. */
  datatype OllamaTool = OllamaTool(kind: string, fn: FunctionSpec)

  /** The tool a converted entry describes. */
  function Described(o: OllamaTool): Tool {
    Tool(o.fn.name, o.fn.description, o.fn.parameters)
  }

  /** The `ollama_tools` list `chat` builds from `self.tools`: one function
      entry per tool, in order, losing nothing. */
  function ToOllama(tools: seq<Tool>): (r: seq<OllamaTool>)
    ensures |r| == |tools|
    ensures forall i :: 0 <= i < |r| ==> r[i].kind == "function" && Described(r[i]) == tools[i]
  {
    seq(|tools|, i requires 0 <= i < |tools| => OllamaTool("function", FunctionSpec(tools[i].name, tools[i].description, tools[i].inputSchema)))
  }

  /** The conversion is one-to-one: different tool lists are offered differently. */
  lemma ToOllamaInjective(a: seq<Tool>, b: seq<Tool>)
    requires ToOllama(a) == ToOllama(b)
    ensures a == b
  {
    assert |a| == |b|;
    forall i | 0 <= i < |a| ensures a[i] == b[i] {
      assert Described(ToOllama(a)[i]) == a[i];
    }
  }

  /** The model is offered exactly the three tools, by these names. */
  lemma OfferedNames()
    ensures var offered := ToOllama(SetupTools());
      |offered| == 3 &&
      offered[0].fn.name == "read_file" && offered[1].fn.name == "list_files" && offered[2].fn.name == "edit_file"
  {
    var offered := ToOllama(SetupTools());
    assert Described(offered[0]) == ReadFileTool;
    assert Described(offered[1]) == ListFilesTool;
    assert Described(offered[2]) == EditFileTool;
  }
}
