/**
 * The request parser of the JSON create endpoint: two required string
 * arguments, `title` then `author`, each with a help text that becomes the
 * error message when the argument is missing.
 */
module BookParser {
  import opened Wrappers
  import opened BookStore

  /** The decoded request values (JSON body or query/form values), by argument name. */
  type Args = map<string, string>

  const TitleHelp: string := "Title cannot be blank!"
  const AuthorHelp: string := "Author cannot be blank!"

  /** The failure of one argument: its name and the message reported for it. */
  datatype ArgError = ArgError(name: string, help: string)

  /**
   * Parses the arguments in declaration order and stops at the first one
   * that is missing. Only presence is required: any string, the empty one
   * included, is accepted; arguments other than the two are ignored.
   */
  function ParseBookArgs(args: Args): (r: Result<Record, ArgError>)
    ensures r.Success? <==> "title" in args && "author" in args
    ensures r.Success? ==> r.value.title == args["title"] && r.value.author == args["author"]
    ensures "title" !in args ==> r == Failure(ArgError("title", TitleHelp))
    ensures "title" in args && "author" !in args ==> r == Failure(ArgError("author", AuthorHelp))
  {
    if "title" !in args then Failure(ArgError("title", TitleHelp))
    else if "author" !in args then Failure(ArgError("author", AuthorHelp))
    else Success(Record(args["title"], args["author"]))
  }

  /** Blank values are not rejected: an empty title parses like any other. */
  lemma EmptyTitleAccepted(author: string)
    ensures ParseBookArgs(map["title" := "", "author" := author]) == Success(Record("", author))
  {
  }
}
