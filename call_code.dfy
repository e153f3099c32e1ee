/**
 * The visitors that turn a CREATE [OR ALTER] PROCEDURE / FUNCTION statement
 * into a ready-to-run call: one DECLARE per parameter followed by
 * `EXEC [dbo].[name]` with the parameters on their own indented lines, or
 * `SELECT [dbo].[name](...)` with the parameters separated by commas.
 */
module CallCode {
  import opened Text

  /** Environment.NewLine, fixed to the Windows value. */
  const NewLine: string := "\r\n"

  /**
   * One ProcedureParameter: its variable name and the text the script
   * generator produces for `DECLARE name type = value` built from it (the
   * generator is not part of this model).
   */
  datatype ProcedureParameter = ProcedureParameter(VariableName: string, DeclareSql: string)

  /** The base identifier of the routine's name and its parameters, as CREATE and CREATE OR ALTER both carry them. */
  datatype CreateStatement = CreateStatement(OrAlter: bool, BaseIdentifier: string, Parameters: seq<ProcedureParameter>)

  datatype Routine = Procedure | Function

  predicate EndsWith(s: string, c: char)
  {
    s != [] && s[|s| - 1] == c
  }

  /** `if (!sql.EndsWith(';')) sql += ";"`: the declaration, terminated once. */
  function Terminated(sql: string): (r: string)
    ensures EndsWith(r, ';')
    ensures |sql| <= |r| <= |sql| + 1 && r[..|sql|] == sql
    ensures EndsWith(sql, ';') ==> r == sql
  {
    if EndsWith(sql, ';') then sql else sql + ";"
  }

  function Names(parameters: seq<ProcedureParameter>): (r: seq<string>)
    ensures |r| == |parameters| && forall k | 0 <= k < |r| :: r[k] == parameters[k].VariableName
  {
    seq(|parameters|, k requires 0 <= k < |parameters| => parameters[k].VariableName)
  }

  function DeclarationsOf(parameters: seq<ProcedureParameter>): (r: seq<string>)
    ensures |r| == |parameters| && forall k | 0 <= k < |r| :: r[k] == Terminated(parameters[k].DeclareSql)
  {
    seq(|parameters|, k requires 0 <= k < |parameters| => Terminated(parameters[k].DeclareSql))
  }

  // ---------------------------------------------------------- The code

  /** Each declaration followed by a line break. */
  function DeclarationLines(declarations: seq<string>): string
  {
    if declarations == [] then ""
    else DeclarationLines(declarations[..|declarations| - 1]) + declarations[|declarations| - 1] + NewLine
  }

  function Header(routine: Routine, name: string): string
  {
    match routine
    case Procedure => "EXEC [dbo].[" + name + "]"
    case Function => "SELECT [dbo].[" + name + "]("
  }

  function Closer(routine: Routine): string
  {
    match routine
    case Procedure => ";"
    case Function => ");"
  }

  /** How one parameter is written into the call. */
  function Argument(routine: Routine, parameter: string): string
  {
    match routine
    case Procedure => NewLine + "\t" + parameter
    case Function => parameter
  }

  /** Each argument followed by a comma, as the loop appends them. */
  function TrailingCommas(routine: Routine, parameters: seq<string>): string
  {
    if parameters == [] then ""
    else TrailingCommas(routine, parameters[..|parameters| - 1]) + Argument(routine, parameters[|parameters| - 1]) + ","
  }

  /** The code text as GenerateExecuteProcedureCode / GenerateExecuteFunctionCode build it. */
  function Generated(routine: Routine, name: string, declarations: seq<string>, parameters: seq<string>): string
  {
    TrimEnd(DeclarationLines(declarations) + Header(routine, name) + TrailingCommas(routine, parameters), ',') + Closer(routine)
  }

  function Arguments(routine: Routine, parameters: seq<string>): (r: seq<string>)
    ensures |r| == |parameters| && forall k | 0 <= k < |r| :: r[k] == Argument(routine, parameters[k])
  {
    seq(|parameters|, k requires 0 <= k < |parameters| => Argument(routine, parameters[k]))
  }

  /** A variable name that is not empty and does not end with a comma, as T-SQL names are. */
  predicate PlainName(p: string)
  {
    p != "" && !EndsWith(p, ',')
  }

  // ------------------------------------------------------ The visitor

  /**
   * CreateProcedureStatementVisitor / CreateFunctionStatementVisitor: the
   * routine's name and, for the statement visited last, its parameter
   * names and their terminated declarations.
   */
  class CallCodeVisitor {
    const Routine: Routine
    var Name: string
    var Parameters: seq<string>
    var Declarations: seq<string>

    /** One declaration per parameter, each terminated by ';'. */
    ghost predicate Valid()
      reads this
    {
      |Parameters| == |Declarations| && forall k | 0 <= k < |Declarations| :: EndsWith(Declarations[k], ';')
    }

    constructor (routine: Routine)
      ensures Routine == routine && Name == "" && Parameters == [] && Declarations == [] && Valid()
    {
      Routine := routine;
      Name := "";
      Parameters, Declarations := [], [];
    }

    /** ExplicitVisit(CreateProcedureStatement) / ExplicitVisit(CreateOrAlterProcedureStatement) and the function forms. */
    method Visit(statement: CreateStatement)
      modifies this
      ensures Valid()
      ensures Name == statement.BaseIdentifier
      ensures Parameters == Names(statement.Parameters) && Declarations == DeclarationsOf(statement.Parameters)
    {
      Name := statement.BaseIdentifier;
      ParseParameters(statement.Parameters);
    }

    /** ParseParameters: both lists are cleared, then filled in parameter order. */
    method ParseParameters(parameters: seq<ProcedureParameter>)
      modifies this`Parameters, this`Declarations
      ensures Valid()
      ensures Parameters == Names(parameters) && Declarations == DeclarationsOf(parameters)
    {
      Parameters, Declarations := [], [];
      for i := 0 to |parameters|
        invariant Parameters == Names(parameters[..i]) && Declarations == DeclarationsOf(parameters[..i])
      {
        var sql := parameters[i].DeclareSql;
        if !EndsWith(sql, ';') {
          sql := sql + ";";
        }
        Declarations := Declarations + [sql];
        Parameters := Parameters + [parameters[i].VariableName];
      }
      assert parameters[..|parameters|] == parameters;
    }

    /** GenerateExecuteProcedureCode / GenerateExecuteFunctionCode. */
    method Generate() returns (scriptCode: string)
      ensures scriptCode == Generated(Routine, Name, Declarations, Parameters)
    {
      var lines := WriteDeclarations(Declarations);
      var call := WriteArguments(Routine, lines + Header(Routine, Name), Parameters);
      scriptCode := TrimEnd(call, ',') + Closer(Routine);
    }
  }

  /** The first loop: each declaration and a line break. */
  method WriteDeclarations(declarations: seq<string>) returns (text: string)
    ensures text == DeclarationLines(declarations)
  {
    text := "";
    for i := 0 to |declarations|
      invariant text == DeclarationLines(declarations[..i])
    {
      DeclarationLinesStep(declarations, i);
      text := text + declarations[i] + NewLine;
    }
    assert declarations[..|declarations|] == declarations;
  }

  /** The second loop: each argument and a comma, appended to the text so far. */
  method WriteArguments(routine: Routine, prefix: string, parameters: seq<string>) returns (text: string)
    ensures text == prefix + TrailingCommas(routine, parameters)
  {
    text := prefix;
    for i := 0 to |parameters|
      invariant text == prefix + TrailingCommas(routine, parameters[..i])
    {
      var arg := Argument(routine, parameters[i]) + ",";
      TrailingCommasStep(routine, parameters, i);
      AppendAssociates(prefix, TrailingCommas(routine, parameters[..i]), arg);
      text := text + arg;
    }
    assert parameters[..|parameters|] == parameters;
  }

  lemma DeclarationLinesStep(declarations: seq<string>, i: nat)
    requires i < |declarations|
    ensures DeclarationLines(declarations[..i + 1]) == DeclarationLines(declarations[..i]) + declarations[i] + NewLine
  {
    assert declarations[..i + 1][..i] == declarations[..i];
  }

  lemma TrailingCommasStep(routine: Routine, parameters: seq<string>, i: nat)
    requires i < |parameters|
    ensures TrailingCommas(routine, parameters[..i + 1]) == TrailingCommas(routine, parameters[..i]) + (Argument(routine, parameters[i]) + ",")
  {
    assert parameters[..i + 1][..i] == parameters[..i];
  }

  // ------------------------------------------------------- Properties

  /** The comma-terminated arguments are the comma-joined arguments and one more comma. */
  lemma {:induction false} TrailingCommasJoin(routine: Routine, parameters: seq<string>)
    requires parameters != []
    ensures TrailingCommas(routine, parameters) == Join(Arguments(routine, parameters), ',') + ","
    decreases |parameters|
  {
    var n := |parameters|;
    if n > 1 {
      var front := parameters[..n - 1];
      TrailingCommasJoin(routine, front);
      assert Arguments(routine, parameters) == Arguments(routine, front) + [Argument(routine, parameters[n - 1])];
      JoinSnoc(Arguments(routine, front), Argument(routine, parameters[n - 1]), ',');
    } else {
      assert parameters[..0] == [];
    }
  }

  /** The text before the arguments ends with ']' or '(', never with a comma. */
  lemma HeadEnds(routine: Routine, name: string, declarations: seq<string>)
    ensures var head := DeclarationLines(declarations) + Header(routine, name); head != [] && head[|head| - 1] != ','
  {
    var h := Header(routine, name);
    assert h[|h| - 1] in {']', '('};
  }

  /** Trimming one trailing comma from text that did not end with one gives the text back. */
  lemma TrimOneComma(x: string)
    requires x != [] && x[|x| - 1] != ','
    ensures TrimEnd(x + [','], ',') == x
  {
    TrimEndDrops(x, ',');
    TrimEndStops(x, ',');
  }

  /** The joined arguments end with the last parameter name's last character. */
  lemma JoinedEnds(routine: Routine, parameters: seq<string>)
    requires parameters != [] && forall k | 0 <= k < |parameters| :: PlainName(parameters[k])
    ensures var j := Join(Arguments(routine, parameters), ','); j != [] && j[|j| - 1] != ','
  {
    var args := Arguments(routine, parameters);
    var last := parameters[|parameters| - 1];
    var a := Argument(routine, last);
    assert args[|args| - 1] == a;
    assert PlainName(last);
    assert a[|a| - 1] == last[|last| - 1];
    JoinLast(args, ',');
  }

  /** Trimming the commas after the call's head leaves the head and the joined arguments. */
  lemma TrimCall(head: string, joined: string, trailing: string)
    requires head != [] && head[|head| - 1] != ','
    requires (joined == [] && trailing == []) || (joined != [] && joined[|joined| - 1] != ',' && trailing == joined + ",")
    ensures TrimEnd(head + trailing, ',') == head + joined
  {
    if joined == [] {
      assert head + trailing == head;
      TrimEndStops(head, ',');
    } else {
      assert head + trailing == (head + joined) + [','];
      TrimOneComma(head + joined);
    }
  }

  /**
   * With plain parameter names the generated call is exactly the
   * declarations, one per line, then the call with the arguments joined by
   * commas (each on its own tab-indented line for a procedure), closed by
   * ";" or ");".
   */
  lemma GeneratedCall(routine: Routine, name: string, declarations: seq<string>, parameters: seq<string>)
    requires forall k | 0 <= k < |parameters| :: PlainName(parameters[k])
    ensures Generated(routine, name, declarations, parameters)
      == DeclarationLines(declarations) + Header(routine, name) + Join(Arguments(routine, parameters), ',') + Closer(routine)
  {
    HeadEnds(routine, name, declarations);
    if parameters != [] {
      TrailingCommasJoin(routine, parameters);
      JoinedEnds(routine, parameters);
    }
    TrimCall(DeclarationLines(declarations) + Header(routine, name), Join(Arguments(routine, parameters), ','), TrailingCommas(routine, parameters));
  }

  /** Without parameters the calls are exactly `EXEC [dbo].[name];` and `SELECT [dbo].[name]();`. */
  lemma NoParameters(name: string)
    ensures Generated(Procedure, name, [], []) == "EXEC [dbo].[" + name + "];"
    ensures Generated(Function, name, [], []) == "SELECT [dbo].[" + name + "]();"
  {
    GeneratedCall(Procedure, name, [], []);
    GeneratedCall(Function, name, [], []);
  }
}
