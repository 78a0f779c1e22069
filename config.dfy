/** The agent's settings (python/ai-agent/config.py). */
module Config {
  /** Characters of a file `get_file_content` returns before truncating. */
  const MsgLimit: nat := 10000

  /** Seconds a script run by `run_python_file` may take. */
  const PythonRunTimeout: nat := 30

  /** The directory every tool call is confined to, relative to the process's
      current directory. */
  const WorkingDir: string := "./calculator"

  /** The text of the error `generate_content` raises when the response carries no
      usage metadata. */
  const ApiRequestFailed: string := "Something went wrong... API request failed."
}
