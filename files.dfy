/** The server's working directory, as `fs` sees it. */
module Files {
  import opened Wrappers

  class FileSystem {
    var files: map<string, string>
    /** Whether writes succeed; otherwise they fail with `writeError`. */
    const writable: bool
    const writeError: string

    constructor(files: map<string, string>, writable: bool, writeError: string)
      ensures this.files == files && this.writable == writable && this.writeError == writeError
    {
      this.files := files;
      this.writable := writable;
      this.writeError := writeError;
    }

    /** `fs.writeFile(path, content)`: the file is created or replaced. */
    method WriteFile(path: string, content: string) returns (err: Option<string>)
      modifies this
      ensures writable ==> err.None? && files == old(files)[path := content]
      ensures !writable ==> err == Some(writeError) && files == old(files)
    {
      if writable {
        files := files[path := content];
        err := None;
      } else {
        err := Some(writeError);
      }
    }
  }
}
