/** The error codes the modelled operations report. SystemError stands for any code that the
    operating system, rather than the core, puts into the std::error_code. */
module Errors {
  datatype Error =
    | Ok
    | SystemError
    | JobDirDoesntExist
    | CantReadJobConf
    | CantReadJobParams
    | ScriptDoesntExist
    | CantReadSessionValues
    | CantWriteSessionParams
    | CantOpenBuildOutput
    | CantOpenBuildExitCode
    | CantWriteJobParams
    | CantWriteJobConf
    | CantWriteSessionId
    | CantExecuteScript
    | ScriptIsNotExecutable
    | CantWriteCrons
}
