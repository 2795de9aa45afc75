// The organizer's settings record and its defaults (config.py).

module Settings {
  /** `Config`: the settings the analyzer and the mover read. */
  datatype Config = Config(
    ollamaModel: string,
    ollamaHost: string,
    maxFileSizeMb: nat,
    maxContentChars: nat,
    batchSize: nat,
    textExtensions: set<string>,
    skipExtensions: set<string>,
    outputDirName: string,
    undoLogFile: string)

  /** `DEFAULT_CONFIG`. */
  const DefaultConfig: Config := Config(
    "llama3.2",
    "http://localhost:11434",
    50,
    4000,
    10,
    {".txt", ".md", ".rst", ".json", ".yaml", ".yml", ".xml", ".csv",
     ".py", ".js", ".ts", ".jsx", ".tsx", ".java", ".c", ".cpp", ".h",
     ".go", ".rs", ".rb", ".php", ".html", ".css", ".scss", ".sql",
     ".sh", ".bash", ".zsh", ".ps1", ".bat", ".cmd",
     ".ini", ".cfg", ".conf", ".toml", ".env", ".gitignore",
     ".dockerfile", ".makefile"},
    {".exe", ".dll", ".so", ".dylib", ".bin", ".iso", ".dmg", ".img", ".lock", ".log"},
    "Organized",
    "undo_log.json")
}
