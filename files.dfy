/** The file system as the savers and loaders see it: a map from path to
    content.  A binary file is the token stream a BinaryWriter wrote into
    it; an XML file is its text. */
module Files {
  import opened Wrappers
  import opened Binary

  datatype Content = Tokens(tokens: seq<Token>) | Text(text: string)

  class FileStore {
    var files: map<string, Content>

    constructor (files: map<string, Content>)
      ensures this.files == files
    {
      this.files := files;
    }

    /** File.Exists. */
    predicate Exists(path: string)
      reads this
    {
      path in files
    }

    /** File.OpenRead as a binary stream: the tokens, when the path holds
        a binary file. */
    function BinaryFile(path: string): (r: Option<seq<Token>>)
      reads this
      ensures r.Some? <==> path in files && files[path].Tokens?
      ensures r.Some? ==> r.value == files[path].tokens
    {
      if path in files && files[path].Tokens? then Some(files[path].tokens) else None
    }

    /** File.ReadAllText: the text, when the path holds a text file. */
    function TextFile(path: string): (r: Option<string>)
      reads this
      ensures r.Some? <==> path in files && files[path].Text?
      ensures r.Some? ==> r.value == files[path].text
    {
      if path in files && files[path].Text? then Some(files[path].text) else None
    }
  }
}
