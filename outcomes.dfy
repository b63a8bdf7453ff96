/** Result shapes shared by every module, and the errors the scripts raise. */
module Outcomes {
  import opened Paths

  datatype Option<+T> = None | Some(value: T)

  /** What a Python call that may raise produces: a value, or the exception. */
  datatype Result<+T> = Ok(value: T) | Err(error: Error)

  /** What a Python call that returns nothing produces: normal return, or the exception. */
  datatype Outcome = Pass | Fail(error: Error)

  datatype Error =
    | MissingKey(key: string)                    // KeyError on the panorama descriptor
    | NoSuchFile(literal: Path, underRoot: Path) // RuntimeError raised by KRPano.pname
    | ToolFailed(message: string)                // RuntimeError raised by KRPanoBase.run
    | NoTagSegment                               // IndexError in get_image_tags
    | DestinationExists(target: Path)            // shutil.Error raised by shutil.move
    | IsADirectory(source: Path)                 // IsADirectoryError raised by shutil.copy2
    | NoSuchDirectory(dir: Path)                 // the usage error of the backup script

  /** The text of the RuntimeErrors the panorama builder raises. */
  function Message(e: Error): string
  {
    match e
    case NoSuchFile(literal, underRoot) => "no such file " + Str(literal) + " or " + Str(underRoot)
    case ToolFailed(message) => message
    case _ => ""
  }
}
